/** `generateUuid`: the browser's `crypto.randomUUID()` when there is one,
    otherwise the template fill `'xxxxxxxx-xxxx-4xxx-yxxx-xxxxxxxxxxxx'`
    with one random nibble per `x` or `y`.  The randomness is an input: the
    sequence of values `Math.random() * 16 | 0` would produce. */
module Uuid {
  import opened JsValue

  const Template := "xxxxxxxx-xxxx-" + "4xxx-yxxx-" + "xxxxxxxxxxxx"

  const HexDigits := "0123456789abcdef"

  /** `v.toString(16)` for a nibble. */
  function HexChar(d: nat): char
    requires d < 16
  {
    HexDigits[d]
  }

  predicate IsHexLower(c: char) {
    '0' <= c <= '9' || 'a' <= c <= 'f'
  }

  predicate IsSlot(c: char) {
    c == 'x' || c == 'y'
  }

  /** How many random nibbles the template `tpl` consumes. */
  function Slots(tpl: string): nat {
    if tpl == [] then 0 else (if IsSlot(tpl[0]) then 1 else 0) + Slots(tpl[1..])
  }

  /** The value `c === 'x' ? r : (r & 0x3 | 0x8)` gives for a nibble `r`:
      for `0 <= r < 16`, `r & 3` is `r % 4` and or-ing 8 adds 8. */
  function SlotValue(c: char, r: nat): (v: nat)
    requires r < 16
    ensures v < 16
    ensures c != 'x' ==> 8 <= v < 12 && v % 4 == r % 4
  {
    if c == 'x' then r else r % 4 + 8
  }

  /** `tpl.replace(/[xy]/g, ...)`: each `x` or `y`, left to right, takes
      the next nibble; every other character stays. */
  function Fill(tpl: string, rs: seq<nat>): (u: string)
    requires |rs| >= Slots(tpl) && forall i :: 0 <= i < |rs| ==> rs[i] < 16
    ensures |u| == |tpl|
  {
    if tpl == [] then []
    else if IsSlot(tpl[0]) then [HexChar(SlotValue(tpl[0], rs[0]))] + Fill(tpl[1..], rs[1..])
    else [tpl[0]] + Fill(tpl[1..], rs)
  }

  /** `generateUuid()`. */
  function GenerateUuid(native: Option<string>, rs: seq<nat>): string
    requires |rs| >= 31 && forall i :: 0 <= i < |rs| ==> rs[i] < 16
  {
    match native
    case Some(u) => u
    case None => TemplateShape(); Fill(Template, rs)
  }

  lemma {:induction false} SlotsSplit(tpl: string, i: nat)
    requires i < |tpl|
    ensures Slots(tpl[i..]) == (if IsSlot(tpl[i]) then 1 else 0) + Slots(tpl[i + 1..])
  {
    assert tpl[i..][1..] == tpl[i + 1..];
  }

  /** Position `i` of the filled text: the slots before it have used up
      the first `Slots(tpl[..i])` nibbles, so a slot shows the hex digit of
      the next one, and anything else is copied. */
  lemma {:induction false} FillAt(tpl: string, rs: seq<nat>, i: nat)
    requires |rs| >= Slots(tpl) && forall j :: 0 <= j < |rs| ==> rs[j] < 16
    requires i < |tpl|
    ensures Slots(tpl[..i]) + (if IsSlot(tpl[i]) then 1 else 0) <= Slots(tpl)
    ensures !IsSlot(tpl[i]) ==> Fill(tpl, rs)[i] == tpl[i]
    ensures IsSlot(tpl[i]) ==> Fill(tpl, rs)[i] == HexChar(SlotValue(tpl[i], rs[Slots(tpl[..i])]))
  {
    if i > 0 {
      assert tpl[..i][1..] == tpl[1..][..i - 1];
      assert tpl[..i][0] == tpl[0];
      if IsSlot(tpl[0]) {
        FillAt(tpl[1..], rs[1..], i - 1);
      } else {
        FillAt(tpl[1..], rs, i - 1);
      }
    } else {
      assert tpl[..0] == [];
    }
  }

  /** The template character at position `i`. */
  function TemplateChar(i: nat): char {
    if i == 8 || i == 13 || i == 18 || i == 23 then '-'
    else if i == 14 then '4'
    else if i == 19 then 'y'
    else 'x'
  }

  /** How many of the first `k` template characters are not slots. */
  function FixedBelow(k: nat): nat {
    (if k > 8 then 1 else 0) + (if k > 13 then 1 else 0) + (if k > 14 then 1 else 0) +
    (if k > 18 then 1 else 0) + (if k > 23 then 1 else 0)
  }

  /** The template is the source's text, character by character. */
  lemma TemplateText()
    ensures Template == seq(36, i requires 0 <= i => TemplateChar(i))
  {
    var t := seq(36, i requires 0 <= i => TemplateChar(i));
    assert Template[..14] == t[..14];
    assert Template[14..24] == t[14..24];
    assert Template[24..] == t[24..];
    assert Template == Template[..14] + Template[14..24] + Template[24..];
    assert t == t[..14] + t[14..24] + t[24..];
  }

  lemma TemplateShape()
    ensures |Template| == 36 && Slots(Template) == 31
    ensures forall i :: 0 <= i < 36 ==> Template[i] == TemplateChar(i)
  {
    TemplateText();
    var k := 0;
    while k < 36
      invariant 0 <= k <= 36
      invariant Slots(Template) == k - FixedBelow(k) + Slots(Template[k..])
    {
      SlotsSplit(Template, k);
      k := k + 1;
    }
  }

  /** The fallback id has the version-4 layout of section 5.4 of RFC 9562:
      36 characters, hyphens at 8, 13, 18 and 23, version `4` at 14, a
      variant digit in {8, 9, a, b} at 19, and lower-case hex digits
      everywhere else. */
  lemma FallbackLayout(rs: seq<nat>)
    requires |rs| >= 31 && forall i :: 0 <= i < |rs| ==> rs[i] < 16
    ensures var u := GenerateUuid(None, rs);
      |u| == 36 && u[8] == '-' && u[13] == '-' && u[18] == '-' && u[23] == '-' &&
      u[14] == '4' && u[19] in {'8', '9', 'a', 'b'} &&
      forall i :: 0 <= i < 36 && i !in {8, 13, 14, 18, 19, 23} ==> IsHexLower(u[i])
  {
    TemplateShape();
    var u := Fill(Template, rs);
    forall i | 0 <= i < 36
      ensures !IsSlot(Template[i]) ==> u[i] == Template[i]
      ensures IsSlot(Template[i]) ==> exists j :: 0 <= j < |rs| && u[i] == HexChar(SlotValue(Template[i], rs[j]))
    {
      FillAt(Template, rs, i);
      if IsSlot(Template[i]) {
        var j := Slots(Template[..i]);
        assert u[i] == HexChar(SlotValue(Template[i], rs[j]));
      }
    }
    var j :| 0 <= j < |rs| && u[19] == HexChar(SlotValue('y', rs[j]));
    assert rs[j] % 4 + 8 in {8, 9, 10, 11};
    forall i | 0 <= i < 36 && i !in {8, 13, 14, 18, 19, 23}
      ensures IsHexLower(u[i])
    {
      var j :| 0 <= j < |rs| && u[i] == HexChar(SlotValue('x', rs[j]));
      HexCharLower(rs[j]);
    }
  }

  lemma HexCharLower(d: nat)
    requires d < 16
    ensures IsHexLower(HexChar(d))
  {
    assert HexDigits == "0123456789" + "abcdef";
    if d < 10 {
      assert HexChar(d) == "0123456789"[d];
    } else {
      assert HexChar(d) == "abcdef"[d - 10];
    }
  }
}
