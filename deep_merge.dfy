/** `deepMerge(target, source)`, the configuration merge.  For every key of
    the override that holds an array or object and that the base also has,
    the loop first merges the base's value into the override's value in
    place; then every override member is assigned onto the base.  Arrays are
    objects too, so they merge index by index: the result is as long as the
    longer of the two, and base elements past the override's end remain. */
module DeepMerge {
  import opened JsValue

  /** A base with no own properties for the merge to see: `undefined`,
      `null`, a boolean, a number or the empty string.  `Object.assign`
      copies nothing from it, and `Object.assign(target || {}, source)`
      writes into `{}` or into the primitive's wrapper without throwing. */
  predicate Keyless(v: Value) {
    v.Undefined? || v.Null? || v.Bool? || v.Num? || v == Str("")
  }

  /** The inputs `deepMerge` handles without throwing or copying string
      indices: wherever the override holds an array or an object under a key
      the base also has, the base holds the same kind of container there, or
      a keyless value under an override container that holds no container
      itself (so `key in target` is never evaluated on the primitive). */
  ghost predicate Mergeable(t: Value, s: Value)
    decreases s
  {
    if s.Obj? then
      (t.Obj? && forall i :: 0 <= i < |s.members| ==>
        (IsObject(s.members[i].val) && s.members[i].key in Keys(t.members) ==>
           Mergeable(Lookup(t.members, s.members[i].key), s.members[i].val))) ||
      (Keyless(t) && forall i :: 0 <= i < |s.members| ==> !IsObject(s.members[i].val))
    else
      s.Arr? &&
      ((t.Arr? && forall i :: 0 <= i < |s.items| ==>
        (IsObject(s.items[i]) && i < |t.items| ==> Mergeable(t.items[i], s.items[i]))) ||
       (Keyless(t) && forall i :: 0 <= i < |s.items| ==> !IsObject(s.items[i])))
  }

  ghost predicate MergeableMembers(tm: seq<Member>, sm: seq<Member>)
    decreases sm
  {
    forall i :: 0 <= i < |sm| ==>
      (IsObject(sm[i].val) && sm[i].key in Keys(tm) ==> Mergeable(Lookup(tm, sm[i].key), sm[i].val))
  }

  ghost predicate MergeableItems(ti: seq<Value>, si: seq<Value>)
    decreases si
  {
    forall i :: 0 <= i < |si| ==> (IsObject(si[i]) && i < |ti| ==> Mergeable(ti[i], si[i]))
  }

  /** The merged base, the value `deepMerge(t, s)` returns: a keyless base
      comes back as it is. */
  function Merge(t: Value, s: Value): Value
    requires Mergeable(t, s)
    decreases s, 1
  {
    if Keyless(t) then t
    else if s.Obj? then Obj(Assign(t.members, PrepMembers(t.members, s.members)))
    else Arr(AssignItems(t.items, PrepItems(t.items, s.items)))
  }

  /** What an override container holds after the loop's
      `Object.assign(source[key], deepMerge(target[key], source[key]))`:
      its own members, merged, followed by the base members it lacked.  A
      keyless base adds nothing, so the override container stays as it is. */
  function Nested(t: Value, s: Value): Value
    requires Mergeable(t, s)
    decreases s, 2
  {
    if Keyless(t) then s
    else if s.Obj? then Obj(Assign(PrepMembers(t.members, s.members), Merge(t, s).members))
    else Merge(t, s)
  }

  /** An override value after the loop has visited its key. */
  function PrepValue(tm: seq<Member>, k: string, v: Value): Value
    requires IsObject(v) && k in Keys(tm) ==> Mergeable(Lookup(tm, k), v)
    decreases v, 3
  {
    if IsObject(v) && k in Keys(tm) then Nested(Lookup(tm, k), v) else v
  }

  /** The override object's members once the loop is done. */
  function PrepMembers(tm: seq<Member>, sm: seq<Member>): (r: seq<Member>)
    requires MergeableMembers(tm, sm)
    ensures Keys(r) == Keys(sm)
    decreases sm, 0
  {
    if sm == [] then []
    else [Member(sm[0].key, PrepValue(tm, sm[0].key, sm[0].val))] + PrepMembers(tm, sm[1..])
  }

  /** An override array element after the loop has visited its index. */
  function PrepItem(ti: seq<Value>, i: nat, v: Value): Value
    requires IsObject(v) && i < |ti| ==> Mergeable(ti[i], v)
    decreases v, 3
  {
    if IsObject(v) && i < |ti| then Nested(ti[i], v) else v
  }

  /** The override array's elements once the loop is done. */
  function PrepItems(ti: seq<Value>, si: seq<Value>): (r: seq<Value>)
    requires MergeableItems(ti, si)
    ensures |r| == |si|
    ensures forall i :: 0 <= i < |si| ==> r[i] == PrepItem(ti, i, si[i])
    decreases si, 0
  {
    if si == [] then []
    else
      var n := |si| - 1;
      PrepItems(ti, si[..n]) + [PrepItem(ti, n, si[n])]
  }

  /** `Object.assign(a, b)` on arrays: `b`'s elements overwrite `a`'s from
      index 0, and the array grows to `b`'s length if that is longer. */
  function AssignItems(a: seq<Value>, b: seq<Value>): (r: seq<Value>)
    ensures |r| == if |a| < |b| then |b| else |a|
    ensures forall i :: 0 <= i < |b| ==> r[i] == b[i]
    ensures forall i :: |b| <= i < |a| ==> r[i] == a[i]
  {
    if |b| >= |a| then b else b + a[|b|..]
  }

  // ---------------------------------------------------------------------------
  // What the merge keeps and what it overrides

  /** Reading a key of the merged override object: the first member with
      that key, after the loop's visit. */
  lemma {:induction false} GetPrep(tm: seq<Member>, sm: seq<Member>, i: nat)
    requires MergeableMembers(tm, sm) && DistinctKeys(sm) && i < |sm|
    ensures Get(PrepMembers(tm, sm), sm[i].key) == Some(PrepValue(tm, sm[i].key, sm[i].val))
    decreases sm
  {
    if i > 0 {
      assert sm[0].key != sm[i].key;
      DistinctTail(sm);
      GetPrep(tm, sm[1..], i - 1);
    }
  }

  /** Objects merge key by key: a base key the override lacks keeps its
      value, an override member holding anything but an array or object
      (null, a string, ...) or a key missing from the base is taken as it
      is, and an override container on an existing key is merged
      recursively; over a keyless base value the override container wins
      unchanged.  The base's keys come first in the model's member order. */
  lemma MergeObject(t: Value, s: Value)
    requires Mergeable(t, s) && s.Obj? && t.Obj? && DistinctKeys(s.members)
    ensures Merge(t, s).Obj? && Keys(t.members) <= Keys(Merge(t, s).members)
    ensures forall k :: k !in Keys(s.members) ==> Get(Merge(t, s).members, k) == Get(t.members, k)
    ensures forall i ::
      (0 <= i < |s.members| && (!IsObject(s.members[i].val) || s.members[i].key !in Keys(t.members) ||
                                Keyless(Lookup(t.members, s.members[i].key)))) ==>
      Get(Merge(t, s).members, s.members[i].key) == Some(s.members[i].val)
    ensures forall i :: 0 <= i < |s.members| && IsObject(s.members[i].val) && s.members[i].key in Keys(t.members) ==>
      Get(Merge(t, s).members, s.members[i].key) == Some(Nested(Lookup(t.members, s.members[i].key), s.members[i].val))
  {
    var sm := s.members;
    var p := PrepMembers(t.members, sm);
    SameKeysDistinct(sm, p);
    forall i | 0 <= i < |sm|
      ensures Get(p, sm[i].key) == Some(PrepValue(t.members, sm[i].key, sm[i].val))
    {
      GetPrep(t.members, sm, i);
    }
    forall i | 0 <= i < |sm| && IsObject(sm[i].val) && sm[i].key in Keys(t.members) && Keyless(Lookup(t.members, sm[i].key))
      ensures PrepValue(t.members, sm[i].key, sm[i].val) == sm[i].val
    {
      assert Mergeable(Lookup(t.members, sm[i].key), sm[i].val);
    }
    forall i | 0 <= i < |sm|
      ensures sm[i].key in Keys(sm)
    {
      KeysAt(sm, i);
    }
  }

  /** `MergeObject` for one override member. */
  lemma MergeMemberAt(t: Value, s: Value, i: nat)
    requires Mergeable(t, s) && s.Obj? && t.Obj? && DistinctKeys(s.members) && i < |s.members|
    ensures Get(Merge(t, s).members, s.members[i].key) ==
      Some(PrepValue(t.members, s.members[i].key, s.members[i].val))
  {
    MergeObject(t, s);
  }

  /** `MergeObject` for one base key the override lacks. */
  lemma MergeKeeps(t: Value, s: Value, k: string)
    requires Mergeable(t, s) && s.Obj? && t.Obj? && DistinctKeys(s.members) && k !in Keys(s.members)
    ensures Get(Merge(t, s).members, k) == Get(t.members, k)
  {
    MergeObject(t, s);
  }

  /** Arrays merge index by index: the result is as long as the longer
      array, an override element replaces the base element at its index
      (merging into it when both are containers, and replacing a keyless
      base element unchanged), and base elements past the override's end
      remain. */
  lemma MergeArray(t: Value, s: Value)
    requires Mergeable(t, s) && s.Arr? && t.Arr?
    ensures Merge(t, s).Arr?
    ensures |Merge(t, s).items| == if |t.items| < |s.items| then |s.items| else |t.items|
    ensures forall i :: 0 <= i < |s.items| && (!IsObject(s.items[i]) || i >= |t.items| || Keyless(t.items[i])) ==>
      Merge(t, s).items[i] == s.items[i]
    ensures forall i :: 0 <= i < |s.items| && IsObject(s.items[i]) && i < |t.items| ==>
      Merge(t, s).items[i] == Nested(t.items[i], s.items[i])
    ensures forall i :: |s.items| <= i < |t.items| ==> Merge(t, s).items[i] == t.items[i]
  {
    forall i | 0 <= i < |s.items| && IsObject(s.items[i]) && i < |t.items| && Keyless(t.items[i])
      ensures PrepItem(t.items, i, s.items[i]) == s.items[i]
    {
      assert Mergeable(t.items[i], s.items[i]);
    }
  }

  /** The override container left under a key reads exactly like the merged
      value: for objects it holds the same members (override keys first),
      for arrays it is the merged array.  Over a keyless base the override
      container is left as it was, and `deepMerge` hands the base back. */
  lemma NestedAgrees(t: Value, s: Value)
    requires Mergeable(t, s)
    requires s.Obj? && t.Obj? ==> DistinctKeys(t.members) && DistinctKeys(s.members)
    ensures s.Arr? && t.Arr? ==> Nested(t, s) == Merge(t, s)
    ensures s.Obj? && t.Obj? ==> Keys(s.members) <= Keys(Nested(t, s).members)
    ensures s.Obj? && t.Obj? ==> forall k :: Get(Nested(t, s).members, k) == Get(Merge(t, s).members, k)
    ensures Keyless(t) ==> Nested(t, s) == s && Merge(t, s) == t
  {
    if s.Obj? && t.Obj? {
      var p := PrepMembers(t.members, s.members);
      var m := Merge(t, s).members;
      assert DistinctKeys(m);
      forall k
        ensures Get(Nested(t, s).members, k) == Get(m, k)
      {
        if k !in Keys(m) {
          assert k !in Keys(p);
        }
      }
    }
  }
}
