/** Script blocking: a `<script type="text/plain" data-service="id">` waits
    until service `id` is consented, and `handleScriptBlocking` then swaps it
    for a runnable copy.  Elements are records of a tag, attributes in
    document order and an inline body. */
module ScriptGate {
  import opened JsValue

  datatype Attr = Attr(name: string, value: string)

  datatype Element = Element(tag: string, attrs: seq<Attr>, body: string)

  /** `el.getAttribute(name)`: the value of the first attribute with that
      name, or nothing when there is none. */
  function AttrOf(attrs: seq<Attr>, name: string): (r: Option<string>)
    ensures r.Some? <==> exists i :: 0 <= i < |attrs| && attrs[i].name == name
    ensures r.Some? ==> exists i ::
      0 <= i < |attrs| && attrs[i].name == name && r.value == attrs[i].value && forall j :: 0 <= j < i ==> attrs[j].name != name
  {
    if attrs == [] then None
    else if attrs[0].name == name then Some(attrs[0].value)
    else AttrOf(attrs[1..], name)
  }

  /** Matches `script[type="text/plain"][data-service]`. */
  predicate Blocked(e: Element) {
    e.tag == "script" && AttrOf(e.attrs, "type") == Some("text/plain") && AttrOf(e.attrs, "data-service").Some?
  }

  /** An attribute `handleScriptBlocking` copies one by one: not `type`, not
      `data-service`, and not `src`, which the copy already holds. */
  predicate Copied(a: Attr) {
    a.name != "type" && a.name != "data-service" && a.name != "src"
  }

  function CopiedAttrs(attrs: seq<Attr>): (r: seq<Attr>)
    ensures forall i :: 0 <= i < |r| ==> Copied(r[i])
  {
    if attrs == [] then []
    else if Copied(attrs[0]) then [attrs[0]] + CopiedAttrs(attrs[1..])
    else CopiedAttrs(attrs[1..])
  }

  /** The new script: `type` first, then `src` if the blocked script had one
      (otherwise its inline body), then its other attributes in order. */
  function Activated(e: Element): Element {
    var src := AttrOf(e.attrs, "src");
    Element("script",
            [Attr("type", "text/javascript")] + (if src.Some? then [Attr("src", src.value)] else []) + CopiedAttrs(e.attrs),
            if src.Some? then "" else e.body)
  }

  /** One element after `handleScriptBlocking` under consent state `state`. */
  function Gate(e: Element, state: seq<Member>): Element {
    if Blocked(e) && Truthy(Lookup(state, AttrOf(e.attrs, "data-service").value)) then Activated(e) else e
  }

  /** The whole document after `handleScriptBlocking`, element by element. */
  function GateAll(doc: seq<Element>, state: seq<Member>): (r: seq<Element>)
    ensures |r| == |doc|
  {
    if doc == [] then []
    else
      var n := |doc| - 1;
      GateAll(doc[..n], state) + [Gate(doc[n], state)]
  }

  lemma {:induction false} GateAllAt(doc: seq<Element>, state: seq<Member>, i: nat)
    requires i < |doc|
    ensures GateAll(doc, state)[i] == Gate(doc[i], state)
  {
    var n := |doc| - 1;
    if i < n {
      GateAllAt(doc[..n], state, i);
    }
  }

  lemma {:induction false} CopiedAttrOf(attrs: seq<Attr>, name: string)
    requires name != "type" && name != "data-service" && name != "src"
    ensures AttrOf(CopiedAttrs(attrs), name) == AttrOf(attrs, name)
  {
    if attrs != [] {
      CopiedAttrOf(attrs[1..], name);
    }
  }

  lemma {:induction false} CopiedAttrNone(attrs: seq<Attr>, name: string)
    requires name == "type" || name == "data-service" || name == "src"
    ensures AttrOf(CopiedAttrs(attrs), name) == None
  {
    if attrs != [] {
      CopiedAttrNone(attrs[1..], name);
    }
  }

  /** The replacement runs: its type is `text/javascript`, it has no
      `data-service`, it keeps the `src` or (without one) the inline body,
      and every other attribute reads as before. */
  lemma ActivatedShape(e: Element, name: string)
    ensures AttrOf(Activated(e).attrs, "type") == Some("text/javascript")
    ensures AttrOf(Activated(e).attrs, "data-service") == None
    ensures AttrOf(Activated(e).attrs, "src") == AttrOf(e.attrs, "src")
    ensures Activated(e).body == if AttrOf(e.attrs, "src").Some? then "" else e.body
    ensures name != "type" && name != "data-service" && name != "src" ==>
      AttrOf(Activated(e).attrs, name) == AttrOf(e.attrs, name)
    ensures !Blocked(Activated(e))
  {
    var src := AttrOf(e.attrs, "src");
    var head := [Attr("type", "text/javascript")] + (if src.Some? then [Attr("src", src.value)] else []);
    var rest := CopiedAttrs(e.attrs);
    var all := Activated(e).attrs;
    assert all == head + rest;
    CopiedAttrNone(e.attrs, "data-service");
    CopiedAttrNone(e.attrs, "src");
    AttrAppend(head, rest, "data-service");
    AttrAppend(head, rest, "src");
    if name != "type" && name != "data-service" && name != "src" {
      CopiedAttrOf(e.attrs, name);
      AttrAppend(head, rest, name);
    }
  }

  /** Reading past attributes that do not carry the name. */
  lemma {:induction false} AttrAppend(a: seq<Attr>, b: seq<Attr>, name: string)
    ensures AttrOf(a + b, name) == if AttrOf(a, name).Some? then AttrOf(a, name) else AttrOf(b, name)
  {
    if a != [] {
      assert (a + b)[1..] == a[1..] + b;
      AttrAppend(a[1..], b, name);
    } else {
      assert a + b == b;
    }
  }

  /** Only blocked scripts whose service is consented change; every other
      element is left as it was. */
  lemma GateChanges(e: Element, state: seq<Member>)
    ensures Gate(e, state) != e ==>
      Blocked(e) && Truthy(Lookup(state, AttrOf(e.attrs, "data-service").value)) && Gate(e, state) == Activated(e)
    ensures !Blocked(e) ==> Gate(e, state) == e
  {
  }

  /** A second pass with the same state changes nothing: replaced scripts
      no longer match the selector, and the others still fail the test. */
  lemma GateIdempotent(e: Element, state: seq<Member>)
    ensures Gate(Gate(e, state), state) == Gate(e, state)
  {
    if Gate(e, state) != e {
      ActivatedShape(e, "type");
    }
  }

  lemma GateAllIdempotent(doc: seq<Element>, state: seq<Member>)
    ensures GateAll(GateAll(doc, state), state) == GateAll(doc, state)
  {
    var once := GateAll(doc, state);
    forall i | 0 <= i < |doc|
      ensures GateAll(once, state)[i] == once[i]
    {
      GateAllAt(once, state, i);
      GateAllAt(doc, state, i);
      GateIdempotent(doc[i], state);
    }
  }
}
