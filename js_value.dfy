/** The JavaScript values the consent core handles: everything JSON can carry,
    plus `undefined`.  Objects keep their members in insertion order, which
    is JavaScript's own-key order for keys that are not array indices (an
    integer-like key such as `"1"` is listed first in JavaScript, and the
    model does not reorder it); reading a property is `Get`, writing one is `Put`,
    and `Object.assign` / object spread is `Assign`.  Numbers are integers
    (see README, "Left out"). */
module JsValue {

  datatype Option<T> = None | Some(value: T)

  datatype Value =
    | Undefined
    | Null
    | Bool(b: bool)
    | Num(n: int)
    | Str(s: string)
    | Arr(items: seq<Value>)
    | Obj(members: seq<Member>)

  datatype Member = Member(key: string, val: Value)

  /** JavaScript truthiness, as used by `if (v)`, `!!v` and `v || d`. */
  predicate Truthy(v: Value) {
    match v
    case Undefined => false
    case Null => false
    case Bool(b) => b
    case Num(n) => n != 0
    case Str(s) => s != []
    case Arr(_) => true
    case Obj(_) => true
  }

  /** `v instanceof Object` for data values: arrays and objects. */
  predicate IsObject(v: Value) {
    v.Arr? || v.Obj?
  }

  // ---------------------------------------------------------------------------
  // Objects as ordered member lists

  function Keys(ms: seq<Member>): seq<string> {
    if ms == [] then [] else [ms[0].key] + Keys(ms[1..])
  }

  /** A JavaScript object never holds the same own key twice. */
  ghost predicate DistinctKeys(ms: seq<Member>) {
    forall i, j :: 0 <= i < j < |ms| ==> ms[i].key != ms[j].key
  }

  /** `obj[k]` for an own property: the member with key `k`, if any. */
  function Get(ms: seq<Member>, k: string): (r: Option<Value>)
    ensures r.Some? <==> k in Keys(ms)
  {
    if ms == [] then None
    else if ms[0].key == k then Some(ms[0].val)
    else Get(ms[1..], k)
  }

  /** `obj[k]` where a missing property reads as `undefined`. */
  function Lookup(ms: seq<Member>, k: string): Value {
    match Get(ms, k)
    case Some(v) => v
    case None => Undefined
  }

  /** `obj[k] = v`: an existing key keeps its position, a new key is
      appended (JavaScript's order for keys that are not array indices). */
  function Put(ms: seq<Member>, k: string, v: Value): (r: seq<Member>)
    ensures Get(r, k) == Some(v)
    ensures forall j :: j != k ==> Get(r, j) == Get(ms, j)
    ensures Keys(r) == if k in Keys(ms) then Keys(ms) else Keys(ms) + [k]
  {
    if ms == [] then [Member(k, v)]
    else if ms[0].key == k then
      var r := [Member(k, v)] + ms[1..];
      assert r[1..] == ms[1..];
      r
    else
      var r := [ms[0]] + Put(ms[1..], k, v);
      assert r[1..] == Put(ms[1..], k, v);
      r
  }

  lemma {:induction false} PutDistinct(ms: seq<Member>, k: string, v: Value)
    requires DistinctKeys(ms)
    ensures DistinctKeys(Put(ms, k, v))
  {
    var r := Put(ms, k, v);
    KeysLength(ms);
    KeysLength(r);
    forall i, j | 0 <= i < j < |r|
      ensures r[i].key != r[j].key
    {
      KeysAt(r, i);
      KeysAt(r, j);
      if j < |ms| {
        KeysAt(ms, i);
        KeysAt(ms, j);
      } else {
        KeysAt(ms, i);
      }
    }
  }

  /** The first member's key does not recur in the rest of a distinct-key object. */
  lemma DistinctTail(s: seq<Member>)
    requires DistinctKeys(s) && s != []
    ensures s[0].key !in Keys(s[1..]) && DistinctKeys(s[1..])
  {
    forall j | 0 <= j < |s[1..]|
      ensures s[1..][j].key != s[0].key
    {
      assert s[1..][j] == s[j + 1];
    }
    NotInKeys(s[1..], s[0].key);
  }

  lemma NotInKeys(ms: seq<Member>, k: string)
    requires forall j :: 0 <= j < |ms| ==> ms[j].key != k
    ensures k !in Keys(ms)
  {
    if ms != [] {
      NotInKeys(ms[1..], k);
    }
  }

  lemma InKeys(ms: seq<Member>, k: string) returns (j: nat)
    requires k in Keys(ms)
    ensures j < |ms| && ms[j].key == k
  {
    if ms[0].key == k {
      j := 0;
    } else {
      var j' := InKeys(ms[1..], k);
      j := j' + 1;
    }
  }

  /** `Object.assign(t, s)`, and `{...t, ...s}` for an object `t` with
      distinct keys: the members of `s`, in order, written onto `t`. */
  function Assign(t: seq<Member>, s: seq<Member>): (r: seq<Member>)
    ensures DistinctKeys(s) ==> forall k :: Get(r, k) == if k in Keys(s) then Get(s, k) else Get(t, k)
    ensures forall k :: k in Keys(r) <==> k in Keys(t) || k in Keys(s)
    ensures Keys(t) <= Keys(r)
    ensures DistinctKeys(t) ==> DistinctKeys(r)
    decreases s
  {
    if s == [] then t
    else
      AssignStep(t, s);
      Assign(Put(t, s[0].key, s[0].val), s[1..])
  }

  lemma AssignStep(t: seq<Member>, s: seq<Member>)
    requires s != []
    ensures DistinctKeys(s) ==> s[0].key !in Keys(s[1..]) && DistinctKeys(s[1..])
    ensures DistinctKeys(t) ==> DistinctKeys(Put(t, s[0].key, s[0].val))
  {
    if DistinctKeys(s) {
      DistinctTail(s);
    }
    if DistinctKeys(t) {
      PutDistinct(t, s[0].key, s[0].val);
    }
  }

  lemma KeysAt(ms: seq<Member>, i: nat)
    requires i < |ms|
    ensures |Keys(ms)| == |ms| && Keys(ms)[i] == ms[i].key
  {
    if i > 0 {
      KeysAt(ms[1..], i - 1);
    } else {
      KeysLength(ms);
    }
  }

  lemma KeysLength(ms: seq<Member>)
    ensures |Keys(ms)| == |ms|
  {
    if ms != [] {
      KeysLength(ms[1..]);
    }
  }

  lemma KeysAppend(a: seq<Member>, b: seq<Member>)
    ensures Keys(a + b) == Keys(a) + Keys(b)
  {
    if a == [] {
      assert a + b == b;
    } else {
      assert (a + b)[1..] == a[1..] + b;
      KeysAppend(a[1..], b);
    }
  }

  /** In an object with distinct keys, the member at index `i` is what its key reads. */
  lemma GetAt(ms: seq<Member>, i: nat)
    requires DistinctKeys(ms) && i < |ms|
    ensures Get(ms, ms[i].key) == Some(ms[i].val)
  {
    if i > 0 {
      assert ms[0].key != ms[i].key;
      GetAt(ms[1..], i - 1);
    }
  }

  /** Assigning members whose keys are all new appends them in order. */
  lemma {:induction false} AssignFresh(t: seq<Member>, s: seq<Member>)
    requires DistinctKeys(s)
    requires forall k :: k in Keys(s) ==> k !in Keys(t)
    ensures Assign(t, s) == t + s
    decreases |s|
  {
    if s != [] {
      var m := s[0];
      var t' := t + [m];
      assert Assign(t, s) == Assign(t', s[1..]) by {
        PutFresh(t, m.key, m.val);
      }
      assert DistinctKeys(s[1..]) && forall k :: k in Keys(s[1..]) ==> k !in Keys(t') by {
        DistinctTail(s);
        KeysAppend(t, [m]);
        assert Keys(s) == [m.key] + Keys(s[1..]);
      }
      assert Assign(t', s[1..]) == t + s by {
        AssignFresh(t', s[1..]);
        ConsSplit(t, s);
      }
    }
  }

  /** A member with a new key in front of distinct keys keeps them distinct. */
  lemma DistinctCons(m: Member, t: seq<Member>)
    requires DistinctKeys(t) && m.key !in Keys(t)
    ensures DistinctKeys([m] + t)
  {
    forall j | 0 <= j < |t|
      ensures t[j].key != m.key
    {
      KeysAt(t, j);
    }
  }

  /** Every member of `Put(ms, k, v)` was in `ms` or is the one put. */
  lemma PutMembers(ms: seq<Member>, k: string, v: Value)
    ensures forall m :: m in Put(ms, k, v) ==> m in ms || m == Member(k, v)
  {
    if ms != [] && ms[0].key != k {
      PutMembers(ms[1..], k, v);
    }
  }

  /** Every member of `Assign(t, s)` comes from `t` or from `s`. */
  lemma AssignMembers(t: seq<Member>, s: seq<Member>)
    ensures forall m :: m in Assign(t, s) ==> m in t || m in s
    decreases s
  {
    if s != [] {
      PutMembers(t, s[0].key, s[0].val);
      AssignMembers(Put(t, s[0].key, s[0].val), s[1..]);
    }
  }

  lemma ConsSplit<T>(t: seq<T>, s: seq<T>)
    requires s != []
    ensures t + [s[0]] + s[1..] == t + s
  {
    assert s == [s[0]] + s[1..];
  }

  lemma PutFresh(ms: seq<Member>, k: string, v: Value)
    requires k !in Keys(ms)
    ensures Put(ms, k, v) == ms + [Member(k, v)]
  {
    if ms != [] {
      PutFresh(ms[1..], k, v);
    }
  }

  /** Writing the value a key already holds changes nothing. */
  lemma PutSame(ms: seq<Member>, k: string, v: Value)
    requires Get(ms, k) == Some(v)
    ensures Put(ms, k, v) == ms
  {
    if ms[0].key != k {
      PutSame(ms[1..], k, v);
    }
  }

  /** One step of reading a key, from index `i` of an object on. */
  lemma GetFrom(ms: seq<Member>, k: string, i: nat)
    requires i < |ms|
    ensures Get(ms[i..], k) == if ms[i].key == k then Some(ms[i].val) else Get(ms[i + 1..], k)
  {
    assert ms[i..][1..] == ms[i + 1..];
  }

  /** Distinctness depends on the keys alone. */
  lemma SameKeysDistinct(a: seq<Member>, b: seq<Member>)
    requires DistinctKeys(a) && Keys(a) == Keys(b)
    ensures DistinctKeys(b)
  {
    KeysLength(a);
    KeysLength(b);
    forall i, j | 0 <= i < j < |b|
      ensures b[i].key != b[j].key
    {
      KeysAt(a, i); KeysAt(a, j); KeysAt(b, i); KeysAt(b, j);
    }
  }

  /** Two objects with distinct keys, the same key order and the same lookups are equal. */
  lemma SameLookupsEqual(a: seq<Member>, b: seq<Member>)
    requires DistinctKeys(a) && Keys(a) == Keys(b)
    requires forall k :: Get(a, k) == Get(b, k)
    ensures a == b
  {
    KeysLength(a);
    KeysLength(b);
    SameKeysDistinct(a, b);
    forall i | 0 <= i < |a|
      ensures a[i] == b[i]
    {
      KeysAt(a, i);
      KeysAt(b, i);
      GetAt(a, i);
      GetAt(b, i);
    }
  }

  // ---------------------------------------------------------------------------
  // Number() and String() on the values the core converts

  /** A JavaScript number as produced by `Number(...)`: an integer or NaN. */
  datatype NumVal = Finite(i: int) | NaN

  /** `a === b` on numbers: NaN equals nothing, itself included. */
  predicate StrictEquals(a: NumVal, b: NumVal) {
    a.Finite? && b.Finite? && a.i == b.i
  }

  predicate IsDigit(c: char) {
    '0' <= c <= '9'
  }

  predicate AllDigits(s: string) {
    forall i :: 0 <= i < |s| ==> IsDigit(s[i])
  }

  function DigitChar(d: nat): (c: char)
    requires d < 10
    ensures IsDigit(c) && c as int - '0' as int == d
  {
    (d + '0' as int) as char
  }

  /** Decimal digits of `n`, most significant first, without leading zeros. */
  function NatToString(n: nat): (s: string)
    ensures s != [] && AllDigits(s)
    ensures s[0] == '0' ==> n == 0 && |s| == 1
  {
    if n < 10 then [DigitChar(n)] else NatToString(n / 10) + [DigitChar(n % 10)]
  }

  /** `String(i)` for an integer. */
  function IntToString(i: int): string {
    if i < 0 then "-" + NatToString(-i) else NatToString(i)
  }

  function DigitValue(c: char): nat {
    if IsDigit(c) then c as int - '0' as int else 0
  }

  /** The value of a run of decimal digits (callers pass only digits). */
  function DigitsValue(ds: string): nat {
    if ds == [] then 0 else DigitsValue(ds[..|ds| - 1]) * 10 + DigitValue(ds[|ds| - 1])
  }

  lemma {:induction false} DigitsRoundTrip(n: nat)
    ensures DigitsValue(NatToString(n)) == n
  {
    if n >= 10 {
      var s := NatToString(n / 10) + [DigitChar(n % 10)];
      assert s[..|s| - 1] == NatToString(n / 10);
      DigitsRoundTrip(n / 10);
    }
  }

  /** JavaScript's WhiteSpace and LineTerminator code points, which `Number(s)` trims. */
  predicate IsJsSpace(c: char) {
    c == '\t' || c == '\n' || c == 11 as char || c == 12 as char || c == '\r' || c == ' '
    || c == 0xA0 as char || c == 0x1680 as char || (0x2000 as char <= c <= 0x200A as char)
    || c == 0x2028 as char || c == 0x2029 as char || c == 0x202F as char || c == 0x205F as char
    || c == 0x3000 as char || c == 0xFEFF as char
  }

  function TrimStart(s: string): (r: string)
    ensures r == [] || !IsJsSpace(r[0])
    ensures |r| <= |s| && r == s[|s| - |r|..]
  {
    if s != [] && IsJsSpace(s[0]) then TrimStart(s[1..]) else s
  }

  function TrimEnd(s: string): (r: string)
    ensures r == [] || !IsJsSpace(r[|r| - 1])
    ensures r <= s
  {
    if s != [] && IsJsSpace(s[|s| - 1]) then TrimEnd(s[..|s| - 1]) else s
  }

  /** `Number(s)` for a string: surrounding space trimmed, the empty string
      is 0, an optionally signed run of decimal digits is its value, and
      anything else is NaN. */
  function StringToNumber(s: string): NumVal {
    var t := TrimEnd(TrimStart(s));
    if t == [] then Finite(0)
    else if t[0] == '-' && |t| > 1 && AllDigits(t[1..]) then Finite(0 - DigitsValue(t[1..]))
    else if t[0] == '+' && |t| > 1 && AllDigits(t[1..]) then Finite(DigitsValue(t[1..]))
    else if AllDigits(t) then Finite(DigitsValue(t))
    else NaN
  }

  /** `String(x)` for a number. */
  function NumberToString(x: NumVal): string {
    match x
    case Finite(i) => IntToString(i)
    case NaN => "NaN"
  }

  /** A string that starts and ends with a non-space is its own trim. */
  lemma TrimNoSpace(s: string)
    requires s != [] && !IsJsSpace(s[0]) && !IsJsSpace(s[|s| - 1])
    ensures TrimEnd(TrimStart(s)) == s
  {
  }

  /** `Number` of a digit run: its decimal value. */
  lemma DigitsNumber(d: string)
    requires d != [] && AllDigits(d)
    ensures StringToNumber(d) == Finite(DigitsValue(d))
  {
    assert IsDigit(d[0]) && IsDigit(d[|d| - 1]);
    TrimNoSpace(d);
  }

  lemma {:induction false} NatStringNumber(i: int)
    requires i >= 0
    ensures StringToNumber(IntToString(i)) == Finite(i)
  {
    var d := NatToString(i);
    assert IntToString(i) == d;
    DigitsNumber(d);
    DigitsRoundTrip(i);
  }

  /** `Number` of a minus sign and a digit run with nothing to trim. */
  lemma MinusDigitsNumber(d: string)
    requires d != [] && AllDigits(d) && TrimEnd(TrimStart("-" + d)) == "-" + d
    ensures StringToNumber("-" + d) == Finite(0 - DigitsValue(d))
  {
    assert ("-" + d)[1..] == d;
  }

  lemma {:induction false} NegStringNumber(i: int)
    requires i < 0
    ensures StringToNumber(IntToString(i)) == Finite(i)
  {
    var d := NatToString(-i);
    var s := "-" + d;
    assert IntToString(i) == s;
    assert TrimEnd(TrimStart(s)) == s by {
      assert s[|s| - 1] == d[|d| - 1] && IsDigit(s[|s| - 1]);
      TrimNoSpace(s);
    }
    assert StringToNumber(s) == Finite(0 - DigitsValue(d)) by {
      MinusDigitsNumber(d);
    }
    assert DigitsValue(d) == -i by {
      DigitsRoundTrip(-i);
    }
  }

  /** `Number(String(x))` gives `x` back for every integer. */
  lemma NumberStringRoundTrip(i: int)
    ensures StringToNumber(IntToString(i)) == Finite(i)
  {
    if i < 0 {
      NegStringNumber(i);
    } else {
      NatStringNumber(i);
    }
  }

  /** `String(v)` for a data value; arrays join their items with commas,
      writing `null` and `undefined` items as empty strings. */
  function ToStr(v: Value): string {
    match v
    case Undefined => "undefined"
    case Null => "null"
    case Bool(b) => if b then "true" else "false"
    case Num(n) => IntToString(n)
    case Str(s) => s
    case Arr(items) => JoinItems(items)
    case Obj(_) => "[object Object]"
  }

  function JoinItems(items: seq<Value>): string {
    if items == [] then []
    else
      var first := if items[0].Undefined? || items[0].Null? then [] else ToStr(items[0]);
      if |items| == 1 then first else first + "," + JoinItems(items[1..])
  }

  /** `Number(v)` for a data value. */
  function ToNumber(v: Value): NumVal {
    match v
    case Undefined => NaN
    case Null => Finite(0)
    case Bool(b) => Finite(if b then 1 else 0)
    case Num(n) => Finite(n)
    case Str(s) => StringToNumber(s)
    case Arr(_) => StringToNumber(ToStr(v))
    case Obj(_) => StringToNumber(ToStr(v))
  }
}
