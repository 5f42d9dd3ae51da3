/**
 Bodies of Parse, Bind, Describe and Close messages (section 55.7 of the PostgreSQL 16 documentation): reading
 them, building them, and replacing the statement name in place.
 */
module Wire {
  type byte = x: int | 0 <= x < 0x100

  type Bytes = seq<byte>

  datatype Option<T> = None | Some(value: T)

  /** A value and the bytes that follow it. */
  datatype Parsed<T> = Bad | Parsed(value: T, rest: Bytes)

  // --- Reading primitive fields ---

  /** Offset of the first NUL, or |b|. */
  function NulAt(b: Bytes): (n: nat)
    ensures n <= |b|
    ensures n < |b| ==> b[n] == 0
  {
    if b == [] || b[0] == 0 then 0 else 1 + NulAt(b[1..])
  }

  predicate NulFree(b: Bytes) { 0 !in b }

  function Text(b: Bytes): Parsed<Bytes> {
    var n := NulAt(b);
    if n == |b| then Bad else Parsed(b[..n], b[n + 1..])
  }

  function Unsigned16(b: Bytes): Parsed<nat> {
    if |b| < 2 then Bad else Parsed(b[0] as int * 0x100 + b[1], b[2..])
  }

  function Unsigned32(b: Bytes): Parsed<nat> {
    if |b| < 4 then Bad else Parsed(b[0] as int * 0x1000000 + b[1] as int * 0x10000 + b[2] as int * 0x100 + b[3], b[4..])
  }

  function Signed16(b: Bytes): Parsed<int> {
    match Unsigned16(b)
    case Bad => Bad
    case Parsed(v, rest) => Parsed(if v < 0x8000 then v else v - 0x10000, rest)
  }

  /** A parameter value; length -1 stands for NULL. */
  datatype Value = Null | Value(bytes: Bytes)

  function Param(b: Bytes): Parsed<Value> {
    match Unsigned32(b)
    case Bad => Bad
    case Parsed(v, rest) =>
      if v == 0xFFFF_FFFF then Parsed(Null, rest)
      else if v >= 0x8000_0000 || v > |rest| then Bad
      else Parsed(Value(rest[..v]), rest[v..])
  }

  function Oids(b: Bytes, k: nat): (r: Parsed<seq<nat>>)
    ensures r.Parsed? ==> |r.value| == k
  {
    if k == 0 then Parsed([], b)
    else
      match Unsigned32(b)
      case Bad => Bad
      case Parsed(v, rest) =>
        match Oids(rest, k - 1)
        case Bad => Bad
        case Parsed(vs, more) => Parsed([v] + vs, more)
  }

  function Codes(b: Bytes, k: nat): (r: Parsed<seq<int>>)
    ensures r.Parsed? ==> |r.value| == k
  {
    if k == 0 then Parsed([], b)
    else
      match Signed16(b)
      case Bad => Bad
      case Parsed(v, rest) =>
        match Codes(rest, k - 1)
        case Bad => Bad
        case Parsed(vs, more) => Parsed([v] + vs, more)
  }

  function Params(b: Bytes, k: nat): (r: Parsed<seq<Value>>)
    ensures r.Parsed? ==> |r.value| == k
    ensures r.Parsed? ==> forall v :: v in r.value && v.Value? ==> |v.bytes| < 0x8000_0000
  {
    if k == 0 then Parsed([], b)
    else
      match Param(b)
      case Bad => Bad
      case Parsed(v, rest) =>
        match Params(rest, k - 1)
        case Bad => Bad
        case Parsed(vs, more) => Parsed([v] + vs, more)
  }

  // --- Reading messages ---

  datatype ParseMessage = ParseMessage(name: Bytes, query: Bytes, oids: seq<nat>)

  datatype BindMessage = BindMessage(portal: Bytes, name: Bytes, formats: seq<int>, params: seq<Value>, results: seq<int>)

  /** What follows the statement name of a Parse message. */
  function ParseTail(b: Bytes): Option<(Bytes, seq<nat>)> {
    match Text(b)
    case Bad => None
    case Parsed(query, rest) =>
      match Unsigned16(rest)
      case Bad => None
      case Parsed(k, more) =>
        match Oids(more, k)
        case Bad => None
        case Parsed(oids, end) => if end == [] then Some((query, oids)) else None
  }

  function DecodeParse(b: Bytes): Option<ParseMessage> {
    match Text(b)
    case Bad => None
    case Parsed(name, rest) =>
      match ParseTail(rest)
      case None => None
      case Some(t) => Some(ParseMessage(name, t.0, t.1))
  }

  function CountedCodes(b: Bytes): Parsed<seq<int>> {
    match Unsigned16(b)
    case Bad => Bad
    case Parsed(k, rest) => Codes(rest, k)
  }

  function CountedParams(b: Bytes): Parsed<seq<Value>> {
    match Unsigned16(b)
    case Bad => Bad
    case Parsed(k, rest) => Params(rest, k)
  }

  /** What follows the statement name of a Bind message. */
  function BindTail(b: Bytes): Option<(seq<int>, seq<Value>, seq<int>)> {
    match CountedCodes(b)
    case Bad => None
    case Parsed(formats, rest) =>
      match CountedParams(rest)
      case Bad => None
      case Parsed(params, more) =>
        match CountedCodes(more)
        case Bad => None
        case Parsed(results, end) => if end == [] then Some((formats, params, results)) else None
  }

  function DecodeBind(b: Bytes): Option<BindMessage> {
    match Text(b)
    case Bad => None
    case Parsed(portal, rest) =>
      match Text(rest)
      case Bad => None
      case Parsed(name, more) =>
        match BindTail(more)
        case None => None
        case Some(t) => Some(BindMessage(portal, name, t.0, t.1, t.2))
  }

  /** Describe and Close: a statement ('S') or a portal ('P') by name. */
  datatype Target = Target(kind: byte, name: Bytes)

  function DecodeTarget(b: Bytes): Option<Target> {
    if b == [] then None
    else
      match Text(b[1..])
      case Bad => None
      case Parsed(name, rest) => if rest == [] then Some(Target(b[0], name)) else None
  }

  // --- Building fields ---

  function Encode16(v: int): Bytes {
    var u := v % 0x10000;
    [u / 0x100, u % 0x100]
  }

  function Encode32(v: int): Bytes {
    var u := v % 0x1_0000_0000;
    [u / 0x1000000, u / 0x10000 % 0x100, u / 0x100 % 0x100, u % 0x100]
  }

  function EncodeOids(oids: seq<nat>): Bytes {
    if oids == [] then [] else EncodeOids(oids[..|oids| - 1]) + Encode32(oids[|oids| - 1])
  }

  function EncodeCodes(codes: seq<int>): Bytes {
    if codes == [] then [] else EncodeCodes(codes[..|codes| - 1]) + Encode16(codes[|codes| - 1])
  }

  function EncodeParams(vals: seq<Bytes>): Bytes {
    if vals == [] then []
    else EncodeParams(vals[..|vals| - 1]) + Encode32(|vals[|vals| - 1]|) + vals[|vals| - 1]
  }

  function EncodeParse(name: Bytes, query: Bytes, oids: seq<nat>): Bytes {
    name + [0] + query + [0] + Encode16(|oids|) + EncodeOids(oids)
  }

  function EncodeBind(portal: Bytes, name: Bytes, formats: seq<int>, vals: seq<Bytes>, results: seq<int>): Bytes {
    portal + [0] + name + [0] + Encode16(|formats|) + EncodeCodes(formats) + Encode16(|vals|) + EncodeParams(vals)
      + Encode16(|results|) + EncodeCodes(results)
  }

  // --- The loops ---

  /** The loop that every reader starts with. */
  method FindNul(body: Bytes, from: nat) returns (end: int)
    requires from <= |body|
    ensures end == (if NulAt(body[from..]) < |body| - from then from + NulAt(body[from..]) else -1)
  {
    var i := from;
    while i < |body|
      invariant from <= i <= |body|
      invariant NulAt(body[from..]) == i - from + NulAt(body[i..])
    {
      if body[i] == 0 { return i; }
      assert body[i..][1..] == body[i + 1..];
      i := i + 1;
    }
    return -1;
  }

  method RewriteParseBodyName(body: Bytes, newName: Bytes) returns (r: Bytes)
    ensures r == RenamedParse(body, newName)
  {
    var nameEnd := FindNul(body, 0);
    assert body[0..] == body;
    if nameEnd == -1 { return body; }
    return newName + [0] + body[nameEnd + 1..];
  }

  method RewriteBindBodyName(body: Bytes, newName: Bytes) returns (r: Bytes)
    ensures r == RenamedBind(body, newName)
  {
    var portalEnd := FindNul(body, 0);
    assert body[0..] == body;
    if portalEnd == -1 { return body; }
    var stmtStart := portalEnd + 1;
    var stmtEnd := FindNul(body, stmtStart);
    if stmtEnd == -1 { return body; }
    assert body[stmtStart..][stmtEnd - stmtStart + 1..] == body[stmtEnd + 1..];
    return body[..stmtStart] + newName + [0] + body[stmtEnd + 1..];
  }

  method ParseBodyStatementName(body: Bytes) returns (r: Bytes)
    ensures r == if Text(body).Parsed? then Text(body).value else []
  {
    var end := FindNul(body, 0);
    assert body[0..] == body;
    return if end == -1 then [] else body[..end];
  }

  /** The query, up to its NUL or to the end of the body. */
  method ParseBodyQuery(body: Bytes) returns (r: Bytes)
    ensures DecodeParse(body).Some? ==> r == DecodeParse(body).value.query
    ensures Text(body).Bad? ==> r == []
    ensures Text(body).Parsed? && Text(Text(body).rest).Bad? ==> r == Text(body).rest
    ensures Text(body).Parsed? && Text(Text(body).rest).Parsed? ==> r == Text(Text(body).rest).value
  {
    hide Unsigned16, Oids;
    var nameEnd := FindNul(body, 0);
    assert body[0..] == body;
    if nameEnd == -1 { return []; }
    var rest := body[nameEnd + 1..];
    var end := FindNul(rest, 0);
    assert rest[0..] == rest;
    return if end == -1 then rest else rest[..end];
  }

  method BindBodyStatementName(body: Bytes) returns (r: Bytes)
    ensures DecodeBind(body).Some? ==> r == DecodeBind(body).value.name
    ensures Text(body).Bad? || Text(Text(body).rest).Bad? ==> r == []
    ensures Text(body).Parsed? && Text(Text(body).rest).Parsed? ==> r == Text(Text(body).rest).value
  {
    hide BindTail;
    var portalEnd := FindNul(body, 0);
    assert body[0..] == body;
    if portalEnd == -1 { return []; }
    var end := FindNul(body, portalEnd + 1);
    if end == -1 { return []; }
    assert body[portalEnd + 1..][..end - portalEnd - 1] == body[portalEnd + 1..end];
    return body[portalEnd + 1..end];
  }

  method CloseBodyTarget(body: Bytes) returns (kind: byte, name: Bytes)
    ensures DecodeTarget(body).Some? ==> Target(kind, name) == DecodeTarget(body).value
    ensures |body| < 2 ==> kind == 0 && name == []
    ensures |body| >= 2 && Text(body[1..]).Bad? ==> kind == body[0] && name == body[1..]
    ensures |body| >= 2 && Text(body[1..]).Parsed? ==> kind == body[0] && name == Text(body[1..]).value
  {
    if |body| < 2 {
      if |body| == 1 { assert body[1..] == []; }
      return 0, [];
    }
    var end := FindNul(body, 1);
    if end == -1 { return body[0], body[1..]; }
    assert body[1..][..end - 1] == body[1..end];
    return body[0], body[1..end];
  }

  method BuildParseBody(name: Bytes, query: Bytes, oids: seq<nat>) returns (buf: Bytes)
    ensures buf == EncodeParse(name, query, oids)
  {
    buf := name + [0];
    buf := buf + query + [0];
    buf := buf + Encode16(|oids|);
    ghost var head := buf;
    var i := 0;
    while i < |oids|
      invariant 0 <= i <= |oids| && buf == head + EncodeOids(oids[..i])
    {
      assert oids[..i + 1][..i] == oids[..i];
      buf := buf + Encode32(oids[i]);
      i := i + 1;
    }
    assert oids[..i] == oids;
  }

  method AppendCodes(buf: Bytes, codes: seq<int>) returns (r: Bytes)
    ensures r == buf + Encode16(|codes|) + EncodeCodes(codes)
  {
    r := buf + Encode16(|codes|);
    ghost var head := r;
    var i := 0;
    while i < |codes|
      invariant 0 <= i <= |codes| && r == head + EncodeCodes(codes[..i])
    {
      assert codes[..i + 1][..i] == codes[..i];
      r := r + Encode16(codes[i]);
      i := i + 1;
    }
    assert codes[..i] == codes;
  }

  method BuildBindBody(portal: Bytes, name: Bytes, formats: seq<int>, vals: seq<Bytes>, results: seq<int>)
    returns (buf: Bytes)
    ensures buf == EncodeBind(portal, name, formats, vals, results)
  {
    buf := portal + [0];
    buf := buf + name + [0];
    buf := AppendCodes(buf, formats);
    buf := buf + Encode16(|vals|);
    ghost var head := buf;
    var i := 0;
    while i < |vals|
      invariant 0 <= i <= |vals| && buf == head + EncodeParams(vals[..i])
    {
      assert vals[..i + 1][..i] == vals[..i];
      buf := buf + Encode32(|vals[i]|);
      buf := buf + vals[i];
      i := i + 1;
    }
    assert vals[..i] == vals;
    buf := AppendCodes(buf, results);
  }

  // --- Replacing a name ---

  function RenamedParse(body: Bytes, newName: Bytes): Bytes {
    match Text(body)
    case Bad => body
    case Parsed(_, rest) => newName + [0] + rest
  }

  function RenamedBind(body: Bytes, newName: Bytes): Bytes {
    match Text(body)
    case Bad => body
    case Parsed(portal, rest) =>
      match Text(rest)
      case Bad => body
      case Parsed(_, more) => body[..|portal| + 1] + newName + [0] + more
  }

  function RenamedTarget(body: Bytes, newName: Bytes): Bytes {
    if body == [] then body else [body[0]] + newName + [0]
  }

  lemma {:induction false} NulAfter(name: Bytes, rest: Bytes)
    requires NulFree(name)
    ensures NulAt(name + [0] + rest) == |name|
  {
    var b := name + [0] + rest;
    if name != [] {
      assert name[0] in name;
      assert b[1..] == name[1..] + [0] + rest;
      forall x | x in name[1..] ensures x in name { }
      NulAfter(name[1..], rest);
    }
  }

  lemma TextOf(name: Bytes, rest: Bytes)
    requires NulFree(name)
    ensures Text(name + [0] + rest) == Parsed(name, rest)
  {
    NulAfter(name, rest);
    var b := name + [0] + rest;
    assert b[..|name|] == name && b[|name| + 1..] == rest;
  }

  lemma {:induction false} BeforeNul(b: Bytes)
    ensures NulFree(b[..NulAt(b)])
  {
    if b != [] && b[0] != 0 {
      BeforeNul(b[1..]);
      assert b[..NulAt(b)] == [b[0]] + b[1..][..NulAt(b[1..])];
    }
  }

  /** Renaming commutes with decoding, on every body: a Parse message keeps its query and its types. */
  lemma RenameParseCommutes(body: Bytes, newName: Bytes)
    requires NulFree(newName)
    ensures DecodeParse(RenamedParse(body, newName)) ==
            if DecodeParse(body).Some? then Some(DecodeParse(body).value.(name := newName)) else None
  {
    hide ParseTail;
    if Text(body).Parsed? { TextOf(newName, Text(body).rest); }
  }

  /** A Bind message keeps its portal, formats, parameter bytes and result formats. */
  lemma RenameBindCommutes(body: Bytes, newName: Bytes)
    requires NulFree(newName)
    ensures DecodeBind(RenamedBind(body, newName)) ==
            if DecodeBind(body).Some? then Some(DecodeBind(body).value.(name := newName)) else None
  {
    hide BindTail, Text, NulAt, NulFree;
    TextParts(body);
    if Text(body).Parsed? && Text(Text(body).rest).Parsed? {
      var portal, more := Text(body).value, Text(Text(body).rest).rest;
      TextOf(newName, more);
      TextOf(portal, newName + [0] + more);
      assert body[..|portal| + 1] == portal + [0];
      assert RenamedBind(body, newName) == portal + [0] + (newName + [0] + more);
    }
  }

  lemma TextParts(b: Bytes)
    ensures Text(b).Parsed? ==> NulFree(Text(b).value) && b == Text(b).value + [0] + Text(b).rest
  {
    BeforeNul(b);
  }

  /** A Describe or Close message becomes one of the same kind for the new name. */
  lemma RenameTargetCommutes(body: Bytes, newName: Bytes)
    requires NulFree(newName) && body != []
    ensures DecodeTarget(RenamedTarget(body, newName)) == Some(Target(body[0], newName))
    ensures DecodeTarget(body).Some? ==>
              DecodeTarget(RenamedTarget(body, newName)) == Some(DecodeTarget(body).value.(name := newName))
  {
    TextOf(newName, []);
    assert RenamedTarget(body, newName)[1..] == newName + [0] + [];
  }

  // --- Building and reading back ---

  lemma Read16(v: int, rest: Bytes)
    ensures Unsigned16(Encode16(v) + rest) == Parsed(v % 0x10000, rest)
    ensures -0x8000 <= v < 0x8000 ==> Signed16(Encode16(v) + rest) == Parsed(v, rest)
  {
    assert (Encode16(v) + rest)[2..] == rest;
  }

  lemma Read32(v: nat, rest: Bytes)
    ensures Unsigned32(Encode32(v) + rest) == Parsed(v % 0x1_0000_0000, rest)
    ensures v < 0x1_0000_0000 ==> Unsigned32(Encode32(v) + rest) == Parsed(v, rest)
  {
    assert (Encode32(v) + rest)[4..] == rest;
    var u := v % 0x1_0000_0000;
    assert u / 0x10000 == u / 0x1000000 * 0x100 + u / 0x10000 % 0x100;
    assert u / 0x100 == u / 0x10000 * 0x100 + u / 0x100 % 0x100;
  }

  /** The list builders append; read from the front. */
  lemma {:induction false} OidsFront(oids: seq<nat>)
    requires oids != []
    ensures EncodeOids(oids) == Encode32(oids[0]) + EncodeOids(oids[1..])
  {
    var n := |oids| - 1;
    if n > 0 {
      OidsFront(oids[..n]);
      assert oids[..n][1..] == oids[1..][..n - 1];
    }
  }

  predicate Uint32s(oids: seq<nat>) { forall o :: o in oids ==> o < 0x1_0000_0000 }

  lemma {:induction false} ReadOids(oids: seq<nat>, rest: Bytes)
    requires Uint32s(oids)
    ensures Oids(EncodeOids(oids) + rest, |oids|) == Parsed(oids, rest)
  {
    if oids == [] {
      assert [] + rest == rest;
    } else {
      hide Encode32, Unsigned32;
      OidsFront(oids);
      hide EncodeOids;
      var more := EncodeOids(oids[1..]) + rest;
      assert EncodeOids(oids) + rest == Encode32(oids[0]) + more;
      assert oids[0] in oids;
      Read32(oids[0], more);
      assert forall o :: o in oids[1..] ==> o in oids;
      assert Uint32s(oids[1..]);
      ReadOids(oids[1..], rest);
      assert [oids[0]] + oids[1..] == oids;
    }
  }

  lemma {:induction false} CodesFront(codes: seq<int>)
    requires codes != []
    ensures EncodeCodes(codes) == Encode16(codes[0]) + EncodeCodes(codes[1..])
  {
    var n := |codes| - 1;
    if n > 0 {
      CodesFront(codes[..n]);
      assert codes[..n][1..] == codes[1..][..n - 1];
    }
  }

  predicate Int16s(codes: seq<int>) { forall c :: c in codes ==> -0x8000 <= c < 0x8000 }

  lemma {:induction false} ReadCodes(codes: seq<int>, rest: Bytes)
    requires Int16s(codes)
    ensures Codes(EncodeCodes(codes) + rest, |codes|) == Parsed(codes, rest)
  {
    if codes == [] {
      assert [] + rest == rest;
    } else {
      hide Encode16;
      CodesFront(codes);
      var more := EncodeCodes(codes[1..]) + rest;
      assert EncodeCodes(codes) + rest == Encode16(codes[0]) + more;
      assert codes[0] in codes;
      Read16(codes[0], more);
      assert forall c :: c in codes[1..] ==> c in codes;
      ReadCodes(codes[1..], rest);
      assert [codes[0]] + codes[1..] == codes;
    }
  }

  lemma {:induction false} ParamsFront(vals: seq<Bytes>)
    requires vals != []
    ensures EncodeParams(vals) == Encode32(|vals[0]|) + vals[0] + EncodeParams(vals[1..])
  {
    hide Encode32;
    var n := |vals| - 1;
    if n > 0 {
      ParamsFront(vals[..n]);
      assert vals[..n][1..] == vals[1..][..n - 1];
    }
  }

  function Values(vals: seq<Bytes>): seq<Value> { seq(|vals|, i requires 0 <= i < |vals| => Value(vals[i])) }

  lemma ReadParam(val: Bytes, rest: Bytes)
    requires |val| < 0x8000_0000
    ensures Param(Encode32(|val|) + val + rest) == Parsed(Value(val), rest)
  {
    hide Encode32, Unsigned32;
    assert Encode32(|val|) + val + rest == Encode32(|val|) + (val + rest);
    Read32(|val|, val + rest);
    assert (val + rest)[..|val|] == val && (val + rest)[|val|..] == rest;
  }

  lemma {:induction false} ReadParams(vals: seq<Bytes>, rest: Bytes)
    requires forall v :: v in vals ==> |v| < 0x8000_0000
    ensures Params(EncodeParams(vals) + rest, |vals|) == Parsed(Values(vals), rest)
  {
    hide Encode32, Param;
    if vals == [] {
      assert [] + rest == rest;
    } else {
      ParamsFront(vals);
      var more := EncodeParams(vals[1..]) + rest;
      hide EncodeParams;
      assert EncodeParams(vals) + rest == Encode32(|vals[0]|) + vals[0] + more;
      assert vals[0] in vals;
      assert forall v :: v in vals[1..] ==> v in vals;
      ReadParam(vals[0], more);
      ReadParams(vals[1..], rest);
      assert [Value(vals[0])] + Values(vals[1..]) == Values(vals);
    }
  }

  lemma TextIsNulFree(b: Bytes)
    ensures Text(b).Parsed? ==> NulFree(Text(b).value)
  {
    BeforeNul(b);
  }

  lemma ParseReadsBack(name: Bytes, query: Bytes, oids: seq<nat>)
    requires Uint32s(oids)
    requires NulFree(name) && NulFree(query) && |oids| < 0x10000
    ensures DecodeParse(EncodeParse(name, query, oids)) == Some(ParseMessage(name, query, oids))
  {
    hide Encode16, EncodeOids, Text, Unsigned16, NulFree, Oids;
    var tail := Encode16(|oids|) + (EncodeOids(oids) + []);
    assert EncodeParse(name, query, oids) == name + [0] + (query + [0] + tail);
    TextOf(name, query + [0] + tail);
    TextOf(query, tail);
    Read16(|oids|, EncodeOids(oids) + []);
    ReadOids(oids, []);
  }

  /** Building a Parse body and decoding it is the identity exactly for names and queries without NUL and fewer than
      2^16 types. */
  lemma BuildParseRoundTrip(name: Bytes, query: Bytes, oids: seq<nat>)
    requires Uint32s(oids)
    ensures DecodeParse(EncodeParse(name, query, oids)) == Some(ParseMessage(name, query, oids))
       <==> NulFree(name) && NulFree(query) && |oids| < 0x10000
  {
    hide EncodeParse, NulAt, NulFree;
    if NulFree(name) && NulFree(query) && |oids| < 0x10000 {
      hide DecodeParse;
      ParseReadsBack(name, query, oids);
    } else {
      var b := EncodeParse(name, query, oids);
      TextIsNulFree(b);
      if Text(b).Parsed? { TextIsNulFree(Text(b).rest); }
    }
  }

  lemma ReadCountedCodes(codes: seq<int>, rest: Bytes)
    requires Int16s(codes) && |codes| < 0x10000
    ensures CountedCodes(Encode16(|codes|) + EncodeCodes(codes) + rest) == Parsed(codes, rest)
  {
    hide Encode16, EncodeCodes, Unsigned16, Codes;
    var more := EncodeCodes(codes) + rest;
    assert Encode16(|codes|) + EncodeCodes(codes) + rest == Encode16(|codes|) + more;
    Read16(|codes|, more);
    ReadCodes(codes, rest);
  }

  lemma ReadCountedParams(vals: seq<Bytes>, rest: Bytes)
    requires |vals| < 0x10000 && forall v :: v in vals ==> |v| < 0x8000_0000
    ensures CountedParams(Encode16(|vals|) + EncodeParams(vals) + rest) == Parsed(Values(vals), rest)
  {
    hide Encode16, EncodeParams, Unsigned16, Params;
    var more := EncodeParams(vals) + rest;
    assert Encode16(|vals|) + EncodeParams(vals) + rest == Encode16(|vals|) + more;
    Read16(|vals|, more);
    ReadParams(vals, rest);
  }

  /** The same for Bind, with every value shorter than 2^31 bytes; NULL has no way to be built. */
  lemma BuildBindRoundTrip(portal: Bytes, name: Bytes, formats: seq<int>, vals: seq<Bytes>, results: seq<int>)
    requires Int16s(formats) && Int16s(results)
    ensures DecodeBind(EncodeBind(portal, name, formats, vals, results))
              == Some(BindMessage(portal, name, formats, Values(vals), results))
       <==> NulFree(portal) && NulFree(name) && |formats| < 0x10000 && |vals| < 0x10000 && |results| < 0x10000
            && forall v :: v in vals ==> |v| < 0x8000_0000
  {
    var b := EncodeBind(portal, name, formats, vals, results);
    if NulFree(portal) && NulFree(name) && |formats| < 0x10000 && |vals| < 0x10000 && |results| < 0x10000
       && forall v :: v in vals ==> |v| < 0x8000_0000
    {
      BindReadsBack(portal, name, formats, vals, results);
    } else if DecodeBind(b) == Some(BindMessage(portal, name, formats, Values(vals), results)) {
      hide EncodeBind, NulAt;
      TextIsNulFree(b);
      TextIsNulFree(Text(b).rest);
      forall v | v in vals ensures |v| < 0x8000_0000 {
        var i :| 0 <= i < |vals| && vals[i] == v;
        assert Values(vals)[i] == Value(v);
      }
      assert false;
    }
  }

  lemma BindReadsBack(portal: Bytes, name: Bytes, formats: seq<int>, vals: seq<Bytes>, results: seq<int>)
    requires Int16s(formats) && Int16s(results)
    requires NulFree(portal) && NulFree(name) && |formats| < 0x10000 && |vals| < 0x10000 && |results| < 0x10000
    requires forall v :: v in vals ==> |v| < 0x8000_0000
    ensures DecodeBind(EncodeBind(portal, name, formats, vals, results))
              == Some(BindMessage(portal, name, formats, Values(vals), results))
  {
    hide Encode16, EncodeCodes, EncodeParams, NulAt, Text, CountedCodes, CountedParams, NulFree, Int16s, Values;
    var t3 := Encode16(|results|) + EncodeCodes(results) + [];
    var t2 := Encode16(|vals|) + EncodeParams(vals) + t3;
    var t1 := Encode16(|formats|) + EncodeCodes(formats) + t2;
    assert EncodeBind(portal, name, formats, vals, results) == portal + [0] + (name + [0] + t1);
    TextOf(portal, name + [0] + t1);
    TextOf(name, t1);
    ReadCountedCodes(formats, t2);
    ReadCountedParams(vals, t3);
    ReadCountedCodes(results, []);
  }
}
