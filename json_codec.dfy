/** `JSON.stringify` and `JSON.parse` for the blobs the widget keeps in
    storage (consent state, history).  Stringify drops `undefined` members,
    writes `undefined` array items as `null` and escapes strings the way
    `JSON.stringify` does; Parse accepts JSON text and answers `Malformed`
    where `JSON.parse` throws.  Numbers are integers here: a fraction or an
    exponent is reported as malformed (see README, "Left out"). */
module JsonCodec {
  import opened JsValue

  datatype ParseResult = Parsed(value: Value) | Malformed

  /** A parser step: what was read, and the input left after it. */
  datatype Step<T> = Step(val: T, rest: string)

  /** Distinct keys in every object, at every depth. */
  ghost predicate WellFormed(v: Value) {
    match v
    case Arr(items) => forall i :: 0 <= i < |items| ==> WellFormed(items[i])
    case Obj(ms) => DistinctKeys(ms) && forall i :: 0 <= i < |ms| ==> WellFormed(ms[i].val)
    case _ => true
  }

  /** The values JSON text denotes: well formed, and no `undefined` anywhere. */
  ghost predicate IsJson(v: Value) {
    match v
    case Undefined => false
    case Arr(items) => forall i :: 0 <= i < |items| ==> IsJson(items[i])
    case Obj(ms) => DistinctKeys(ms) && forall i :: 0 <= i < |ms| ==> IsJson(ms[i].val)
    case _ => true
  }

  // ---------------------------------------------------------------------------
  // JSON.stringify

  /** What `JSON.stringify` keeps of a value: `undefined` members are
      dropped and `undefined` array items become `null`. */
  function Normalize(v: Value): Value {
    match v
    case Undefined => Null
    case Arr(items) => Arr(NormalizeItems(items))
    case Obj(ms) => Obj(NormalizeMembers(ms))
    case _ => v
  }

  function NormalizeItems(items: seq<Value>): (r: seq<Value>)
    ensures |r| == |items|
  {
    if items == [] then [] else [Normalize(items[0])] + NormalizeItems(items[1..])
  }

  function NormalizeMembers(ms: seq<Member>): seq<Member> {
    if ms == [] then []
    else if ms[0].val.Undefined? then NormalizeMembers(ms[1..])
    else [Member(ms[0].key, Normalize(ms[0].val))] + NormalizeMembers(ms[1..])
  }

  function HexDigit(d: nat): char
    requires d < 16
  {
    "0123456789abcdef"[d]
  }

  /** One character of a string, escaped as `JSON.stringify` escapes it. */
  function EscapeChar(c: char): string {
    if c == '"' then "\\\""
    else if c == '\\' then "\\\\"
    else if c == 8 as char then "\\b"
    else if c == '\t' then "\\t"
    else if c == '\n' then "\\n"
    else if c == 12 as char then "\\f"
    else if c == '\r' then "\\r"
    else if c < ' ' then "\\u00" + [HexDigit(c as int / 16), HexDigit(c as int % 16)]
    else [c]
  }

  function Escape(s: string): string {
    if s == [] then [] else EscapeChar(s[0]) + Escape(s[1..])
  }

  function Quote(s: string): string {
    "\"" + Escape(s) + "\""
  }

  /** The text of a value that holds no `undefined`. */
  function Emit(v: Value): string {
    match v
    case Undefined => "null"
    case Null => "null"
    case Bool(b) => if b then "true" else "false"
    case Num(n) => IntToString(n)
    case Str(s) => Quote(s)
    case Arr(items) => "[" + EmitItems(items) + "]"
    case Obj(ms) => "{" + EmitMembers(ms) + "}"
  }

  function EmitItems(items: seq<Value>): string {
    if items == [] then []
    else if |items| == 1 then Emit(items[0])
    else Emit(items[0]) + "," + EmitItems(items[1..])
  }

  function EmitMembers(ms: seq<Member>): string {
    if ms == [] then []
    else if |ms| == 1 then EmitMember(ms[0])
    else EmitMember(ms[0]) + "," + EmitMembers(ms[1..])
  }

  function EmitMember(m: Member): string {
    Quote(m.key) + ":" + Emit(m.val)
  }

  /** `JSON.stringify(v)`: no text at all for `undefined`. */
  function Stringify(v: Value): Option<string> {
    if v.Undefined? then None else Some(Emit(Normalize(v)))
  }

  // ---------------------------------------------------------------------------
  // JSON.parse

  predicate IsWs(c: char) {
    c == ' ' || c == '\t' || c == '\n' || c == '\r'
  }

  function SkipWs(s: string): (r: string)
    ensures |r| <= |s|
  {
    if s != [] && IsWs(s[0]) then SkipWs(s[1..]) else s
  }

  predicate IsHex(c: char) {
    '0' <= c <= '9' || 'a' <= c <= 'f' || 'A' <= c <= 'F'
  }

  function HexValue(c: char): (d: nat)
    requires IsHex(c)
    ensures d < 16
  {
    if '0' <= c <= '9' then c as int - '0' as int
    else if 'a' <= c <= 'f' then c as int - 'a' as int + 10
    else c as int - 'A' as int + 10
  }

  /** The character after a backslash in a string literal.  A `\u` escape
      naming a UTF-16 surrogate is not representable here (see README). */
  function ParseEscape(s: string): (r: Option<Step<char>>)
    ensures r.Some? ==> |r.value.rest| < |s|
  {
    if s == [] then None
    else if s[0] == '"' || s[0] == '\\' || s[0] == '/' then Some(Step(s[0], s[1..]))
    else if s[0] == 'b' then Some(Step(8 as char, s[1..]))
    else if s[0] == 'f' then Some(Step(12 as char, s[1..]))
    else if s[0] == 'n' then Some(Step('\n', s[1..]))
    else if s[0] == 'r' then Some(Step('\r', s[1..]))
    else if s[0] == 't' then Some(Step('\t', s[1..]))
    else if s[0] == 'u' && |s| >= 5 && IsHex(s[1]) && IsHex(s[2]) && IsHex(s[3]) && IsHex(s[4]) then
      var code := ((HexValue(s[1]) * 16 + HexValue(s[2])) * 16 + HexValue(s[3])) * 16 + HexValue(s[4]);
      if 0xD800 <= code < 0xE000 then None else Some(Step(code as char, s[5..]))
    else None
  }

  /** The characters of a string literal up to its closing quote. */
  function ParseChars(s: string): (r: Option<Step<string>>)
    ensures r.Some? ==> |r.value.rest| < |s|
  {
    if s == [] then None
    else if s[0] == '"' then Some(Step([], s[1..]))
    else if s[0] == '\\' then
      match ParseEscape(s[1..])
      case None => None
      case Some(Step(c, rest)) =>
        match ParseChars(rest)
        case None => None
        case Some(Step(cs, rest')) => Some(Step([c] + cs, rest'))
    else if s[0] < ' ' then None
    else
      match ParseChars(s[1..])
      case None => None
      case Some(Step(cs, rest')) => Some(Step([s[0]] + cs, rest'))
  }

  /** The number of leading decimal digits of `s`. */
  function DigitCount(s: string): (n: nat)
    ensures n <= |s| && AllDigits(s[..n])
    ensures n < |s| ==> !IsDigit(s[n])
  {
    if s != [] && IsDigit(s[0]) then
      var n := 1 + DigitCount(s[1..]);
      assert s[..n] == [s[0]] + s[1..][..n - 1];
      n
    else 0
  }

  /** A digit run: `0`, or digits not starting with `0`. */
  function ParseDigits(u: string): (r: Option<Step<nat>>)
    ensures r.Some? ==> |r.value.rest| < |u|
  {
    if u == [] || !IsDigit(u[0]) then None
    else
      var n := if u[0] == '0' then 1 else DigitCount(u);
      Some(Step(DigitsValue(u[..n]), u[n..]))
  }

  /** An integer literal: `-`?, then a digit run. */
  function ParseNumber(s: string): (r: Option<Step<Value>>)
    ensures r.Some? ==> |r.value.rest| < |s|
  {
    var neg := s != [] && s[0] == '-';
    match ParseDigits(if neg then s[1..] else s)
    case None => None
    case Some(Step(mag, rest)) => Some(Step(Num(if neg then 0 - mag else mag), rest))
  }

  function ParseLiteral(s: string, word: string, v: Value): (r: Option<Step<Value>>)
    requires word != []
    ensures r.Some? ==> |r.value.rest| < |s|
  {
    if word <= s then Some(Step(v, s[|word|..])) else None
  }

  function ParseValue(s: string): (r: Option<Step<Value>>)
    ensures r.Some? ==> |r.value.rest| < |s|
    decreases |s|, 0
  {
    var t := SkipWs(s);
    if t == [] then None
    else if t[0] == 'n' then ParseLiteral(t, "null", Null)
    else if t[0] == 't' then ParseLiteral(t, "true", Bool(true))
    else if t[0] == 'f' then ParseLiteral(t, "false", Bool(false))
    else if t[0] == '"' then
      match ParseChars(t[1..])
      case None => None
      case Some(Step(str, rest)) => Some(Step(Str(str), rest))
    else if t[0] == '-' || IsDigit(t[0]) then ParseNumber(t)
    else if t[0] == '[' then ParseArray(t[1..])
    else if t[0] == '{' then ParseObject(t[1..])
    else None
  }

  /** The rest of an array after its `[`. */
  function ParseArray(s: string): (r: Option<Step<Value>>)
    ensures r.Some? ==> |r.value.rest| < |s|
    decreases |s|, 2
  {
    var u := SkipWs(s);
    if u != [] && u[0] == ']' then Some(Step(Arr([]), u[1..]))
    else
      match ParseItems(s)
      case None => None
      case Some(Step(items, rest)) => Some(Step(Arr(items), rest))
  }

  /** One or more comma-separated values and the closing `]`. */
  function ParseItems(s: string): (r: Option<Step<seq<Value>>>)
    ensures r.Some? ==> |r.value.rest| < |s|
    decreases |s|, 1
  {
    match ParseValue(s)
    case None => None
    case Some(Step(v, rest)) =>
      var u := SkipWs(rest);
      if u == [] then None
      else if u[0] == ']' then Some(Step([v], u[1..]))
      else if u[0] == ',' then
        match ParseItems(u[1..])
        case None => None
        case Some(Step(vs, rest')) => Some(Step([v] + vs, rest'))
      else None
  }

  /** The rest of an object after its `{`.  Members are added in text order,
      so a repeated key keeps its first position and its last value, as
      `JSON.parse` does. */
  function ParseObject(s: string): (r: Option<Step<Value>>)
    ensures r.Some? ==> |r.value.rest| < |s|
    decreases |s|, 2
  {
    var u := SkipWs(s);
    if u != [] && u[0] == '}' then Some(Step(Obj([]), u[1..]))
    else
      match ParseMembers(u)
      case None => None
      case Some(Step(ms, rest)) => Some(Step(Obj(Assign([], ms)), rest))
  }

  /** One `"key": value` member. */
  function ParseMember(s: string): (r: Option<Step<Member>>)
    ensures r.Some? ==> |r.value.rest| < |s|
    decreases |s|, 0
  {
    if s == [] || s[0] != '"' then None
    else
      match ParseChars(s[1..])
      case None => None
      case Some(Step(k, r1)) =>
        var r2 := SkipWs(r1);
        if r2 == [] || r2[0] != ':' then None
        else
          match ParseValue(r2[1..])
          case None => None
          case Some(Step(v, r3)) => Some(Step(Member(k, v), r3))
  }

  /** One or more members and the closing `}`. */
  function ParseMembers(s: string): (r: Option<Step<seq<Member>>>)
    ensures r.Some? ==> |r.value.rest| < |s|
    decreases |s|, 1
  {
    match ParseMember(s)
    case None => None
    case Some(Step(m, r3)) =>
      var r4 := SkipWs(r3);
      if r4 == [] then None
      else if r4[0] == '}' then Some(Step([m], r4[1..]))
      else if r4[0] == ',' then
        match ParseMembers(SkipWs(r4[1..]))
        case None => None
        case Some(Step(ms, r5)) => Some(Step([m] + ms, r5))
      else None
  }

  /** `JSON.parse(s)`: one value, surrounded by nothing but whitespace. */
  function Parse(s: string): ParseResult {
    match ParseValue(s)
    case None => Malformed
    case Some(Step(v, rest)) => if SkipWs(rest) == [] then Parsed(v) else Malformed
  }

  // ---------------------------------------------------------------------------
  // Round trip: JSON.parse(JSON.stringify(v)) gives back what stringify kept

  /** What may follow a value inside JSON text, so that a number ends there. */
  predicate Delimited(rest: string) {
    rest == [] || rest[0] == ',' || rest[0] == ']' || rest[0] == '}'
  }

  lemma HexRoundTrip(d: nat)
    requires d < 16
    ensures IsHex(HexDigit(d)) && HexValue(HexDigit(d)) == d
  {
  }

  /** A non-empty sequence is its head followed by its tail. */
  lemma HeadTail<T>(s: seq<T>)
    requires s != []
    ensures [s[0]] + s[1..] == s && (|s| == 1 ==> [s[0]] == s)
  {
  }

  /** The first element and the rest of a concatenation. */
  lemma DropFirst(e: string, x: string)
    requires e != []
    ensures (e + x)[0] == e[0] && (e + x)[1..] == e[1..] + x
  {
  }

  lemma Regroup4(a: string, b: string, c: string, d: string)
    ensures a + b + c + d == a + (b + c + d)
  {
  }

  /** A control character escaped as `\u00XX` reads back as itself. */
  lemma {:induction false} HexEscapeRoundTrip(c: char, x: string)
    requires c < ' '
    ensures ParseEscape(['u', '0', '0', HexDigit(c as int / 16), HexDigit(c as int % 16)] + x) == Some(Step(c, x))
  {
    var hi, lo := c as int / 16, c as int % 16;
    HexRoundTrip(hi);
    HexRoundTrip(lo);
    var y := ['u', '0', '0', HexDigit(hi), HexDigit(lo)] + x;
    assert y[5..] == x;
  }

  /** One escaped character reads back as itself. */
  lemma {:induction false} EscapeCharRoundTrip(c: char, x: string)
    ensures EscapeChar(c) != []
    ensures EscapeChar(c)[0] == '\\' ==> ParseEscape(EscapeChar(c)[1..] + x) == Some(Step(c, x))
    ensures EscapeChar(c)[0] != '\\' ==> EscapeChar(c) == [c] && c != '"' && ' ' <= c
  {
    var e := EscapeChar(c);
    if c == '"' || c == '\\' || c == 8 as char || c == '\t' || c == '\n' || c == 12 as char || c == '\r' {
      assert |e| == 2;
      DropFirst(e[1..], x);
    } else if c < ' ' {
      assert e[1..] == ['u', '0', '0', HexDigit(c as int / 16), HexDigit(c as int % 16)];
      HexEscapeRoundTrip(c, x);
    }
  }

  /** `ParseChars` on a plain character. */
  lemma CharsPlain(t: string, cs: string, rest: string)
    requires t != [] && t[0] != '"' && t[0] != '\\' && ' ' <= t[0]
    requires ParseChars(t[1..]) == Some(Step(cs, rest))
    ensures ParseChars(t) == Some(Step([t[0]] + cs, rest))
  {
  }

  /** `ParseChars` on an escape sequence. */
  lemma CharsEscaped(t: string, c: char, x: string, cs: string, rest: string)
    requires t != [] && t[0] == '\\'
    requires ParseEscape(t[1..]) == Some(Step(c, x)) && ParseChars(x) == Some(Step(cs, rest))
    ensures ParseChars(t) == Some(Step([c] + cs, rest))
  {
  }

  lemma {:induction false} EscapeRoundTrip(s: string, rest: string)
    ensures ParseChars(Escape(s) + "\"" + rest) == Some(Step(s, rest))
  {
    if s == [] {
      assert Escape(s) + "\"" + rest == "\"" + rest;
    } else {
      var c := s[0];
      var x := Escape(s[1..]) + "\"" + rest;
      var e := EscapeChar(c);
      var t := Escape(s) + "\"" + rest;
      assert t == e + x by {
        assert Escape(s) == e + Escape(s[1..]);
        Regroup4(e, Escape(s[1..]), "\"", rest);
      }
      EscapeRoundTrip(s[1..], rest);
      EscapeCharRoundTrip(c, x);
      DropFirst(e, x);
      if e[0] == '\\' {
        CharsEscaped(t, c, x, s[1..], rest);
      } else {
        CharsPlain(t, s[1..], rest);
      }
      HeadTail(s);
    }
  }

  lemma {:induction false} DigitCountOf(d: string, rest: string)
    requires AllDigits(d)
    requires rest == [] || !IsDigit(rest[0])
    ensures DigitCount(d + rest) == |d|
  {
    if d != [] {
      assert (d + rest)[1..] == d[1..] + rest;
      DigitCountOf(d[1..], rest);
    } else {
      assert d + rest == rest;
    }
  }

  /** The two halves of a concatenation. */
  lemma CatParts(a: string, b: string)
    ensures (a + b)[..|a|] == a && (a + b)[|a|..] == b
  {
  }

  /** The digit run `ParseNumber` reads from a canonical run and what follows it. */
  lemma {:induction false} UnsignedRun(d: string, rest: string)
    requires d != [] && AllDigits(d) && (d[0] == '0' ==> |d| == 1)
    requires rest == [] || !IsDigit(rest[0])
    ensures (d + rest)[0] == d[0]
    ensures (if d[0] == '0' then 1 else DigitCount(d + rest)) == |d|
    ensures (d + rest)[..|d|] == d && (d + rest)[|d|..] == rest
  {
    CatParts(d, rest);
    if d[0] != '0' {
      DigitCountOf(d, rest);
    }
  }

  lemma RunParse(d: string, rest: string)
    requires d != [] && AllDigits(d) && (d[0] == '0' ==> |d| == 1)
    requires rest == [] || !IsDigit(rest[0])
    ensures ParseDigits(d + rest) == Some(Step(DigitsValue(d), rest))
  {
    UnsignedRun(d, rest);
  }

  lemma PlainRunParse(d: string, rest: string)
    requires d != [] && AllDigits(d) && (d[0] == '0' ==> |d| == 1)
    requires rest == [] || !IsDigit(rest[0])
    ensures ParseNumber(d + rest) == Some(Step(Num(DigitsValue(d)), rest))
  {
    RunParse(d, rest);
  }

  lemma MinusRunParse(s: string, d: string, rest: string)
    requires d != [] && AllDigits(d) && (d[0] == '0' ==> |d| == 1)
    requires rest == [] || !IsDigit(rest[0])
    requires s != [] && s[0] == '-' && s[1..] == d + rest
    ensures ParseNumber(s) == Some(Step(Num(0 - DigitsValue(d)), rest))
  {
    RunParse(d, rest);
  }

  lemma {:induction false} NatNumberRoundTrip(n: int, rest: string)
    requires n >= 0
    requires rest == [] || !IsDigit(rest[0])
    ensures ParseNumber(IntToString(n) + rest) == Some(Step(Num(n), rest))
  {
    var d := NatToString(n);
    assert IntToString(n) == d;
    assert ParseNumber(d + rest) == Some(Step(Num(DigitsValue(d)), rest)) by {
      PlainRunParse(d, rest);
    }
    assert DigitsValue(d) == n by {
      DigitsRoundTrip(n);
    }
  }

  lemma {:induction false} NegNumberRoundTrip(n: int, rest: string)
    requires n < 0
    requires rest == [] || !IsDigit(rest[0])
    ensures ParseNumber(IntToString(n) + rest) == Some(Step(Num(n), rest))
  {
    var d := NatToString(-n);
    assert IntToString(n) == "-" + d;
    var s := IntToString(n) + rest;
    assert s != [] && s[0] == '-' && s[1..] == d + rest by {
      Regroup3("-", d, rest);
    }
    assert ParseNumber(s) == Some(Step(Num(0 - DigitsValue(d)), rest)) by {
      MinusRunParse(s, d, rest);
    }
    assert DigitsValue(d) == -n by {
      DigitsRoundTrip(-n);
    }
  }

  lemma NumberRoundTrip(n: int, rest: string)
    requires rest == [] || !IsDigit(rest[0])
    ensures ParseNumber(IntToString(n) + rest) == Some(Step(Num(n), rest))
  {
    if n < 0 {
      NegNumberRoundTrip(n, rest);
    } else {
      NatNumberRoundTrip(n, rest);
    }
  }

  /** The first character of a value's text, which tells the parser its kind. */
  lemma EmitStart(w: Value)
    ensures Emit(w) != []
    ensures Emit(w)[0] in {'n', 't', 'f', '"', '-', '[', '{'} || IsDigit(Emit(w)[0])
  {
  }

  lemma EmitItemsStart(items: seq<Value>)
    requires items != []
    ensures EmitItems(items) != [] && EmitItems(items)[0] == Emit(items[0])[0]
  {
    EmitStart(items[0]);
  }

  lemma EmitMembersStart(ms: seq<Member>)
    requires ms != []
    ensures EmitMembers(ms) != [] && EmitMembers(ms)[0] == '"'
  {
  }

  lemma {:induction false} ValueRoundTrip(w: Value, rest: string)
    requires IsJson(w) && Delimited(rest)
    ensures ParseValue(Emit(w) + rest) == Some(Step(w, rest))
    decreases w, 3
  {
    match w
    case Arr(items) => ArrValueRoundTrip(items, rest);
    case Obj(ms) => ObjValueRoundTrip(ms, rest);
    case _ => ScalarRoundTrip(w, rest);
  }

  /** The first character of `Emit(w) + rest` is where `ParseValue` starts. */
  lemma ValueText(w: Value, rest: string)
    ensures var t := Emit(w) + rest; t != [] && t[0] == Emit(w)[0] && SkipWs(t) == t
  {
    EmitStart(w);
  }

  lemma ScalarRoundTrip(w: Value, rest: string)
    requires !w.Undefined? && !w.Arr? && !w.Obj? && Delimited(rest)
    ensures ParseValue(Emit(w) + rest) == Some(Step(w, rest))
  {
    match w
    case Num(n) => NumValueRoundTrip(n, rest);
    case Str(str) => StrValueRoundTrip(str, rest);
    case _ => LiteralRoundTrip(w, rest);
  }

  lemma LiteralRoundTrip(w: Value, rest: string)
    requires w.Null? || w.Bool?
    ensures ParseValue(Emit(w) + rest) == Some(Step(w, rest))
  {
    var t := Emit(w) + rest;
    ValueText(w, rest);
    assert ParseValue(t) == ParseLiteral(t, Emit(w), w);
    CatParts(Emit(w), rest);
  }

  lemma NumValueRoundTrip(n: int, rest: string)
    requires Delimited(rest)
    ensures ParseValue(Emit(Num(n)) + rest) == Some(Step(Num(n), rest))
  {
    var t := Emit(Num(n)) + rest;
    ValueText(Num(n), rest);
    assert ParseValue(t) == ParseNumber(t);
    NumberRoundTrip(n, rest);
  }

  lemma StrValueRoundTrip(str: string, rest: string)
    ensures ParseValue(Emit(Str(str)) + rest) == Some(Step(Str(str), rest))
  {
    var t := Emit(Str(str)) + rest;
    ValueText(Str(str), rest);
    assert t[0] == '"' && t[1..] == Escape(str) + "\"" + rest by {
      Regroup("\"", Escape(str), "\"", rest, []);
    }
    EscapeRoundTrip(str, rest);
  }

  /** A bracketed text: its opening character, then the rest. */
  lemma Enclosed(a: string, e: string, b: string, rest: string)
    requires |a| == 1
    ensures var t := a + e + b + rest; t != [] && t[0] == a[0] && t[1..] == e + b + rest
  {
  }

  lemma ArrayDispatch(t: string)
    requires t != [] && SkipWs(t) == t && t[0] == '['
    ensures ParseValue(t) == ParseArray(t[1..])
  {
  }

  lemma ObjectDispatch(t: string)
    requires t != [] && SkipWs(t) == t && t[0] == '{'
    ensures ParseValue(t) == ParseObject(t[1..])
  {
  }

  lemma {:induction false} ArrValueRoundTrip(items: seq<Value>, rest: string)
    requires IsJson(Arr(items)) && Delimited(rest)
    ensures ParseValue(Emit(Arr(items)) + rest) == Some(Step(Arr(items), rest))
    decreases items, 3
  {
    var t := Emit(Arr(items)) + rest;
    ValueText(Arr(items), rest);
    Enclosed("[", EmitItems(items), "]", rest);
    ArrayDispatch(t);
    ArrRoundTrip(items, rest);
  }

  lemma {:induction false} ObjValueRoundTrip(ms: seq<Member>, rest: string)
    requires IsJson(Obj(ms)) && Delimited(rest)
    ensures ParseValue(Emit(Obj(ms)) + rest) == Some(Step(Obj(ms), rest))
    decreases ms, 3
  {
    var t := Emit(Obj(ms)) + rest;
    ValueText(Obj(ms), rest);
    Enclosed("{", EmitMembers(ms), "}", rest);
    ObjectDispatch(t);
    ObjRoundTrip(ms, rest);
  }

  lemma {:induction false} ArrRoundTrip(items: seq<Value>, rest: string)
    requires forall i :: 0 <= i < |items| ==> IsJson(items[i])
    ensures ParseArray(EmitItems(items) + "]" + rest) == Some(Step(Arr(items), rest))
    decreases items, 1
  {
    var u := EmitItems(items) + "]" + rest;
    if items == [] {
      assert u == "]" + rest;
      assert u[1..] == rest;
    } else {
      EmitItemsStart(items);
      EmitStart(items[0]);
      assert SkipWs(u) == u;
      ItemsRoundTrip(items, rest);
    }
  }

  lemma {:induction false} ObjRoundTrip(ms: seq<Member>, rest: string)
    requires DistinctKeys(ms) && forall i :: 0 <= i < |ms| ==> IsJson(ms[i].val)
    ensures ParseObject(EmitMembers(ms) + "}" + rest) == Some(Step(Obj(ms), rest))
    decreases ms, 2
  {
    var u := EmitMembers(ms) + "}" + rest;
    if ms == [] {
      assert u == "}" + rest;
      assert u[1..] == rest;
      assert Assign([], ms) == [];
    } else {
      EmitMembersStart(ms);
      assert SkipWs(u) == u;
      MembersRoundTrip(ms, rest);
      assert ParseMembers(u) == Some(Step(ms, rest));
      AssignFresh([], ms);
      assert Assign([], ms) == ms by {
        assert [] + ms == ms;
      }
    }
  }

  /** `ParseItems` after its first value, when a `]` follows. */
  lemma ItemsLast(s: string, v: Value, x: string)
    requires ParseValue(s) == Some(Step(v, x)) && x != [] && x[0] == ']'
    ensures ParseItems(s) == Some(Step([v], x[1..]))
  {
    assert SkipWs(x) == x;
  }

  /** `ParseItems` after its first value, when a `,` and more items follow. */
  lemma ItemsNext(s: string, v: Value, x: string, vs: seq<Value>, rest: string)
    requires ParseValue(s) == Some(Step(v, x)) && x != [] && x[0] == ','
    requires ParseItems(x[1..]) == Some(Step(vs, rest))
    ensures ParseItems(s) == Some(Step([v] + vs, rest))
  {
    assert SkipWs(x) == x;
  }

  lemma {:induction false} ItemsRoundTrip(items: seq<Value>, rest: string)
    requires items != [] && forall i :: 0 <= i < |items| ==> IsJson(items[i])
    ensures ParseItems(EmitItems(items) + "]" + rest) == Some(Step(items, rest))
    decreases items, 0
  {
    var w := items[0];
    var s := EmitItems(items) + "]" + rest;
    var y := if |items| == 1 then [] else EmitItems(items[1..]) + "]" + rest;
    var x := if |items| == 1 then "]" + rest else "," + y;
    assert ParseValue(s) == Some(Step(w, x)) by {
      assert s == Emit(w) + x;
      assert IsJson(w);
      ValueRoundTrip(w, x);
    }
    if |items| == 1 {
      ItemsLast(s, w, x);
      assert x[1..] == rest;
      HeadTail(items);
    } else {
      assert x[1..] == y;
      ItemsRoundTrip(items[1..], rest);
      ItemsNext(s, w, x, items[1..], rest);
      HeadTail(items);
    }
  }

  /** The quoted key of an emitted member reads back, up to its colon. */
  lemma MemberKeyText(m: Member, x: string)
    ensures var s := EmitMember(m) + x;
      s[0] == '"' && ParseChars(s[1..]) == Some(Step(m.key, ":" + Emit(m.val) + x))
  {
    var s := EmitMember(m) + x;
    var r1 := ":" + Emit(m.val) + x;
    assert s == "\"" + (Escape(m.key) + "\"" + r1);
    assert s[1..] == Escape(m.key) + "\"" + r1;
    EscapeRoundTrip(m.key, r1);
  }

  /** `ParseMember` once its key and its value have been read. */
  lemma MemberUnfold(s: string, k: string, r1: string, v: Value, x: string)
    requires s != [] && s[0] == '"' && ParseChars(s[1..]) == Some(Step(k, r1))
    requires r1 != [] && r1[0] == ':' && SkipWs(r1) == r1
    requires ParseValue(r1[1..]) == Some(Step(v, x))
    ensures ParseMember(s) == Some(Step(Member(k, v), x))
  {
  }

  /** Reading one emitted member leaves the parser at what follows it. */
  lemma {:induction false} MemberRoundTrip(m: Member, x: string)
    requires IsJson(m.val) && Delimited(x)
    ensures ParseMember(EmitMember(m) + x) == Some(Step(m, x))
    decreases m, 0
  {
    var r1 := ":" + Emit(m.val) + x;
    MemberKeyText(m, x);
    Regroup3(":", Emit(m.val), x);
    ValueRoundTrip(m.val, x);
    MemberUnfold(EmitMember(m) + x, m.key, r1, m.val, x);
  }

  /** `ParseMembers` after its first member, when a `}` follows. */
  lemma MembersLast(s: string, m: Member, x: string)
    requires ParseMember(s) == Some(Step(m, x)) && x != [] && x[0] == '}'
    ensures ParseMembers(s) == Some(Step([m], x[1..]))
  {
    assert SkipWs(x) == x;
  }

  /** `ParseMembers` after its first member, when a `,` and more members follow. */
  lemma MembersNext(s: string, m: Member, x: string, ms: seq<Member>, rest: string)
    requires ParseMember(s) == Some(Step(m, x)) && x != [] && x[0] == ','
    requires ParseMembers(SkipWs(x[1..])) == Some(Step(ms, rest))
    ensures ParseMembers(s) == Some(Step([m] + ms, rest))
  {
    assert SkipWs(x) == x;
  }

  /** The text of one member and what follows it. */
  lemma EmitOneMember(ms: seq<Member>, rest: string)
    requires |ms| == 1
    ensures EmitMembers(ms) + "}" + rest == EmitMember(ms[0]) + ("}" + rest)
  {
  }

  /** The text of several members, split after the first. */
  lemma EmitMoreMembers(ms: seq<Member>, rest: string)
    requires |ms| > 1
    ensures EmitMembers(ms) + "}" + rest == EmitMember(ms[0]) + ("," + (EmitMembers(ms[1..]) + "}" + rest))
  {
    var e, t := EmitMember(ms[0]), EmitMembers(ms[1..]);
    assert EmitMembers(ms) == e + "," + t;
    Regroup(e, ",", t, "}", rest);
  }

  lemma Regroup3(a: string, b: string, c: string)
    requires |a| == 1
    ensures a + b + c == a + (b + c) && (a + b + c)[0] == a[0] && (a + b + c)[1..] == b + c
  {
  }

  lemma Regroup(a: string, b: string, c: string, d: string, e: string)
    ensures a + b + c + d + e == a + (b + (c + d + e))
  {
  }

  lemma EmitMembersQuote(ms: seq<Member>, rest: string)
    requires ms != []
    ensures (EmitMembers(ms) + "}" + rest)[0] == '"'
  {
    assert EmitMember(ms[0])[0] == '"';
  }

  lemma NoWs(y: string)
    requires y != [] && !IsWs(y[0])
    ensures SkipWs(y) == y
  {
  }

  lemma {:induction false} MembersRoundTrip(ms: seq<Member>, rest: string)
    requires ms != [] && forall i :: 0 <= i < |ms| ==> IsJson(ms[i].val)
    ensures ParseMembers(EmitMembers(ms) + "}" + rest) == Some(Step(ms, rest))
    decreases ms, 1
  {
    var m := ms[0];
    var s := EmitMembers(ms) + "}" + rest;
    assert IsJson(m.val);
    if |ms| == 1 {
      var x := "}" + rest;
      EmitOneMember(ms, rest);
      MemberRoundTrip(m, x);
      MembersLast(s, m, x);
      assert x[1..] == rest;
      HeadTail(ms);
    } else {
      var y := EmitMembers(ms[1..]) + "}" + rest;
      var x := "," + y;
      EmitMoreMembers(ms, rest);
      MemberRoundTrip(m, x);
      assert x[1..] == y;
      EmitMembersQuote(ms[1..], rest);
      NoWs(y);
      MembersRoundTrip(ms[1..], rest);
      MembersNext(s, m, x, ms[1..], rest);
      HeadTail(ms);
    }
  }

  /** The whole text of a JSON value reads back as that value. */
  lemma EmitParse(w: Value)
    requires IsJson(w)
    ensures Parse(Emit(w)) == Parsed(w)
  {
    ValueRoundTrip(w, []);
    assert Emit(w) + [] == Emit(w);
  }

  // ---------------------------------------------------------------------------
  // What stringify keeps

  lemma {:induction false} NormalizeItemsAt(items: seq<Value>, i: nat)
    requires i < |items|
    ensures NormalizeItems(items)[i] == Normalize(items[i])
  {
    if i > 0 {
      NormalizeItemsAt(items[1..], i - 1);
    }
  }

  /** The members stringify keeps: the defined ones, in order, normalized. */
  lemma {:induction false} NormalizeMembersKeys(ms: seq<Member>)
    ensures forall k :: k in Keys(NormalizeMembers(ms)) ==> k in Keys(ms)
  {
    if ms != [] {
      NormalizeMembersKeys(ms[1..]);
    }
  }

  /** Stringify's output is JSON: well-formed input gives a value without
      `undefined` and with distinct keys. */
  lemma {:induction false} NormalizeIsJson(v: Value)
    requires WellFormed(v)
    ensures IsJson(Normalize(v))
    decreases v, 1
  {
    match v
    case Arr(items) =>
      forall i | 0 <= i < |items|
        ensures IsJson(NormalizeItems(items)[i])
      {
        NormalizeItemsAt(items, i);
        NormalizeIsJson(items[i]);
      }
    case Obj(ms) =>
      NormalizeMembersJson(ms);
    case _ =>
  }

  lemma {:induction false} NormalizeMembersJson(ms: seq<Member>)
    requires DistinctKeys(ms) && forall i :: 0 <= i < |ms| ==> WellFormed(ms[i].val)
    ensures DistinctKeys(NormalizeMembers(ms))
    ensures forall i :: 0 <= i < |NormalizeMembers(ms)| ==> IsJson(NormalizeMembers(ms)[i].val)
    decreases ms, 0
  {
    if ms != [] {
      var tail := NormalizeMembers(ms[1..]);
      DistinctTail(ms);
      NormalizeMembersJson(ms[1..]);
      if !ms[0].val.Undefined? {
        var m := Member(ms[0].key, Normalize(ms[0].val));
        NormalizeMembersKeys(ms[1..]);
        DistinctCons(m, tail);
        NormalizeIsJson(ms[0].val);
        assert NormalizeMembers(ms) == [m] + tail;
      }
    }
  }

  /** Stringify changes nothing in a value that is already JSON. */
  lemma {:induction false} NormalizeOfJson(v: Value)
    requires IsJson(v)
    ensures Normalize(v) == v
    decreases v, 1
  {
    match v
    case Arr(items) =>
      NormalizeItemsOfJson(items);
    case Obj(ms) =>
      NormalizeMembersOfJson(ms);
    case _ =>
  }

  lemma {:induction false} NormalizeItemsOfJson(items: seq<Value>)
    requires forall i :: 0 <= i < |items| ==> IsJson(items[i])
    ensures NormalizeItems(items) == items
    decreases items, 0
  {
    if items != [] {
      NormalizeOfJson(items[0]);
      NormalizeItemsOfJson(items[1..]);
      HeadTail(items);
    }
  }

  lemma {:induction false} NormalizeMembersOfJson(ms: seq<Member>)
    requires forall i :: 0 <= i < |ms| ==> IsJson(ms[i].val)
    ensures NormalizeMembers(ms) == ms
    decreases ms, 0
  {
    if ms != [] {
      assert IsJson(ms[0].val);
      NormalizeOfJson(ms[0].val);
      NormalizeMembersOfJson(ms[1..]);
      HeadTail(ms);
    }
  }

  /** `JSON.parse(JSON.stringify(v))` is what stringify kept of `v`. */
  lemma StringifyParse(v: Value)
    requires WellFormed(v) && !v.Undefined?
    ensures Stringify(v).Some?
    ensures Parse(Stringify(v).value) == Parsed(Normalize(v))
  {
    NormalizeIsJson(v);
    EmitParse(Normalize(v));
  }

  // ---------------------------------------------------------------------------
  // What parse produces

  /** Every value `JSON.parse` returns is JSON: no `undefined`, and distinct
      keys in every object (a repeated key keeps one member). */
  lemma {:induction false} ParseValueJson(s: string)
    ensures ParseValue(s).Some? ==> IsJson(ParseValue(s).value.val)
    decreases |s|, 0
  {
    var t := SkipWs(s);
    if t != [] && t[0] == '[' {
      ParseArrayJson(t[1..]);
    } else if t != [] && t[0] == '{' {
      ParseObjectJson(t[1..]);
    }
  }

  lemma {:induction false} ParseArrayJson(s: string)
    ensures ParseArray(s).Some? ==> IsJson(ParseArray(s).value.val)
    decreases |s|, 2
  {
    ParseItemsJson(s);
  }

  lemma {:induction false} ParseItemsJson(s: string)
    ensures ParseItems(s).Some? ==>
      forall i :: 0 <= i < |ParseItems(s).value.val| ==> IsJson(ParseItems(s).value.val[i])
    decreases |s|, 1
  {
    ParseValueJson(s);
    match ParseValue(s)
    case None =>
    case Some(Step(v, rest)) =>
      var u := SkipWs(rest);
      if u != [] && u[0] == ',' {
        ParseItemsJson(u[1..]);
      }
  }

  lemma {:induction false} ParseObjectJson(s: string)
    ensures ParseObject(s).Some? ==> IsJson(ParseObject(s).value.val)
    decreases |s|, 2
  {
    var u := SkipWs(s);
    ParseMembersJson(u);
    match ParseMembers(u)
    case None =>
    case Some(Step(ms, rest)) =>
      var r := Assign([], ms);
      AssignMembers([], ms);
      forall i | 0 <= i < |r|
        ensures IsJson(r[i].val)
      {
        assert r[i] in r;
        var j :| 0 <= j < |ms| && ms[j] == r[i];
      }
  }

  lemma {:induction false} ParseMemberJson(s: string)
    ensures ParseMember(s).Some? ==> IsJson(ParseMember(s).value.val.val)
    decreases |s|, 0
  {
    if s != [] && s[0] == '"' {
      match ParseChars(s[1..])
      case None =>
      case Some(Step(k, r1)) =>
        var r2 := SkipWs(r1);
        if r2 != [] && r2[0] == ':' {
          ParseValueJson(r2[1..]);
        }
    }
  }

  lemma {:induction false} ParseMembersJson(s: string)
    ensures ParseMembers(s).Some? ==>
      forall i :: 0 <= i < |ParseMembers(s).value.val| ==> IsJson(ParseMembers(s).value.val[i].val)
    decreases |s|, 1
  {
    ParseMemberJson(s);
    match ParseMember(s)
    case None =>
    case Some(Step(m, r3)) =>
      var r4 := SkipWs(r3);
      if r4 != [] && r4[0] == ',' {
        ParseMembersJson(SkipWs(r4[1..]));
      }
  }

  /** A successful `JSON.parse` yields JSON. */
  lemma ParseJson(s: string)
    ensures Parse(s).Parsed? ==> IsJson(Parse(s).value)
  {
    ParseValueJson(s);
  }
}
