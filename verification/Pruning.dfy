/** Dropping experimental method variants from a schema
    (codex-rs/app-server-protocol/src/export.rs:503-552). */
module Pruning {
  import opened Text
  import opened Json

  /** The schema of the `method` property, where a variant has one. */
  function MethodSchema(v: Value): Option<map<string, Value>> {
    if v.Object? && "properties" in v.fields && v.fields["properties"].Object?
      && "method" in v.fields["properties"].fields && v.fields["properties"].fields["method"].Object?
    then Some(v.fields["properties"].fields["method"].fields)
    else None
  }

  predicate HasConst(m: map<string, Value>) {
    "const" in m && m["const"].Str?
  }

  predicate HasEnum(m: map<string, Value>) {
    "enum" in m && m["enum"].Array?
  }

  predicate Single(items: seq<Value>, methods: set<string>) {
    |items| == 1 && items[0].Str? && items[0].s in methods
  }

  /** `is_experimental_method_variant` */
  predicate IsExperimental(v: Value, methods: set<string>) {
    match MethodSchema(v)
    case None => false
    case Some(m) =>
      if HasConst(m) then m["const"].s in methods else HasEnum(m) && Single(m["enum"].items, methods)
  }

  /** What `retain` leaves of an array. */
  function Kept(items: seq<Value>, methods: set<string>): (kept: seq<Value>)
    ensures forall x :: x in kept <==> x in items && !IsExperimental(x, methods)
  {
    if items == [] then []
    else if IsExperimental(items[|items| - 1], methods) then Kept(items[..|items| - 1], methods)
    else Kept(items[..|items| - 1], methods) + [items[|items| - 1]]
  }

  /** What `prune_experimental_methods_inner` leaves: an array is filtered before its items are pruned. */
  function Prune(v: Value, methods: set<string>): Value
    decreases v
  {
    match v
    case Array(items) =>
      var kept := Kept(items, methods);
      Array(seq(|kept|, i requires 0 <= i < |kept| => assert kept[i] in items; Prune(kept[i], methods)))
    case Object(fields) => Object(map k | k in fields :: Prune(fields[k], methods))
    case _ => v
  }

  method PruneExperimentalMethods(v: Value, methods: set<string>) returns (pruned: Value)
    ensures pruned == Prune(v, methods)
    decreases v, 1
  {
    match v
    case Array(items) => pruned := PruneItems(v, methods);
    case Object(fields) => pruned := PruneFields(v, methods);
    case _ => pruned := v;
  }

  method Retain(items: seq<Value>, methods: set<string>) returns (kept: seq<Value>)
    ensures kept == Kept(items, methods)
  {
    kept := [];
    for i := 0 to |items|
      invariant kept == Kept(items[..i], methods)
    {
      assert items[..i + 1][..i] == items[..i];
      if !IsExperimental(items[i], methods) {
        kept := kept + [items[i]];
      }
    }
    assert items[..|items|] == items;
  }

  method PruneItems(v: Value, methods: set<string>) returns (pruned: Value)
    requires v.Array?
    ensures pruned == Prune(v, methods)
    decreases v, 0
  {
    var kept := Retain(v.items, methods);
    var done: seq<Value> := [];
    for i := 0 to |kept|
      invariant |done| == i && forall j :: 0 <= j < i ==> done[j] == Prune(kept[j], methods)
    {
      assert kept[i] in v.items;
      var item := PruneExperimentalMethods(kept[i], methods);
      done := done + [item];
    }
    pruned := Array(done);
  }

  method PruneFields(v: Value, methods: set<string>) returns (pruned: Value)
    requires v.Object?
    ensures pruned == Prune(v, methods)
    decreases v, 0
  {
    var done: map<string, Value> := map[];
    var rest := v.fields.Keys;
    while rest != {}
      invariant done.Keys !! rest && done.Keys + rest == v.fields.Keys
      invariant forall k :: k in done ==> done[k] == Prune(v.fields[k], methods)
      decreases rest
    {
      var k :| k in rest;
      var field := PruneExperimentalMethods(v.fields[k], methods);
      done := done[k := field];
      rest := rest - {k};
    }
    assert done.Keys == v.fields.Keys;
    pruned := Object(done);
  }

  // ----- what is left -----

  /** No array anywhere holds an experimental variant. */
  predicate Clean(v: Value, methods: set<string>) {
    match v
    case Array(items) => forall i :: 0 <= i < |items| ==> !IsExperimental(items[i], methods) && Clean(items[i], methods)
    case Object(fields) => forall k :: k in fields ==> Clean(fields[k], methods)
    case _ => true
  }

  /** No experimental variant, but its `enum` shrinks to an experimental method when its own items are
      pruned: the array was already filtered by then. */
  predicate Hidden(v: Value, methods: set<string>) {
    match MethodSchema(v)
    case None => false
    case Some(m) =>
      && !HasConst(m) && HasEnum(m) && |m["enum"].items| != 1
      && Single(Kept(m["enum"].items, methods), methods)
  }

  /** No retained array item is hidden. */
  predicate NoneHidden(v: Value, methods: set<string>)
    decreases v
  {
    match v
    case Array(items) =>
      forall i :: 0 <= i < |items| && !IsExperimental(items[i], methods) ==>
        !Hidden(items[i], methods) && NoneHidden(items[i], methods)
    case Object(fields) => forall k :: k in fields ==> NoneHidden(fields[k], methods)
    case _ => true
  }

  lemma PruneEnum(items: seq<Value>, methods: set<string>)
    ensures Single(Prune(Array(items), methods).items, methods) <==> Single(Kept(items, methods), methods)
  {
    var kept := Kept(items, methods);
    if |kept| == 1 {
      assert kept[0] in items;
      assert Prune(Array(items), methods).items[0] == Prune(kept[0], methods);
    }
  }

  lemma KeptOfOne(items: seq<Value>, methods: set<string>)
    requires |items| == 1
    ensures Single(Kept(items, methods), methods) <==> Single(items, methods)
  {
    assert items[..0] == [];
  }

  lemma PrunedMethodSchema(v: Value, methods: set<string>)
    ensures MethodSchema(v).None? <==> MethodSchema(Prune(v, methods)).None?
    ensures MethodSchema(v).Some? ==>
      Object(MethodSchema(Prune(v, methods)).value) == Prune(Object(MethodSchema(v).value), methods)
  {
    if v.Object? && "properties" in v.fields && v.fields["properties"].Object? {
      var p, p' := v.fields["properties"], Prune(v, methods).fields["properties"];
      assert p' == Prune(p, methods);
      if "method" in p.fields {
        assert p'.fields["method"] == Prune(p.fields["method"], methods);
      }
    }
  }

  /** What pruning makes of an array item: an experimental variant exactly when it was one or hid one. */
  lemma PrunedIsExperimental(v: Value, methods: set<string>)
    ensures IsExperimental(Prune(v, methods), methods) <==> IsExperimental(v, methods) || Hidden(v, methods)
  {
    PrunedMethodSchema(v, methods);
    if MethodSchema(v).Some? {
      var m, m' := MethodSchema(v).value, MethodSchema(Prune(v, methods)).value;
      assert "const" in m ==> m'["const"] == Prune(m["const"], methods);
      assert "enum" in m ==> m'["enum"] == Prune(m["enum"], methods);
      if HasEnum(m) {
        PruneEnum(m["enum"].items, methods);
        if |m["enum"].items| == 1 {
          KeptOfOne(m["enum"].items, methods);
        }
      }
    }
  }

  /** No experimental variant remains exactly when no retained array item was hidden. */
  lemma {:induction false} PruningLeavesNone(v: Value, methods: set<string>)
    ensures Clean(Prune(v, methods), methods) <==> NoneHidden(v, methods)
    decreases v
  {
    match v
    case Array(items) =>
      var kept, left := Kept(items, methods), Prune(v, methods).items;
      forall i | 0 <= i < |kept|
        ensures !IsExperimental(left[i], methods) <==> !Hidden(kept[i], methods)
        ensures Clean(left[i], methods) <==> NoneHidden(kept[i], methods)
      {
        assert kept[i] in items;
        assert left[i] == Prune(kept[i], methods);
        PrunedIsExperimental(kept[i], methods);
        PruningLeavesNone(kept[i], methods);
      }
      if NoneHidden(v, methods) {
        KeptAreSafe(items, methods);
      }
      if AllSafe(kept, methods) {
        SafeMeansNoneHidden(items, methods);
      }
    case Object(fields) =>
      forall k | k in fields ensures Clean(Prune(v, methods).fields[k], methods) <==> NoneHidden(fields[k], methods) {
        PruningLeavesNone(fields[k], methods);
      }
    case _ =>
  }

  lemma IndexIn(x: Value, items: seq<Value>) returns (i: nat)
    requires x in items
    ensures i < |items| && items[i] == x
  {
    i :| i < |items| && items[i] == x;
  }

  ghost predicate AllSafe(items: seq<Value>, methods: set<string>) {
    forall i :: 0 <= i < |items| ==> !Hidden(items[i], methods) && NoneHidden(items[i], methods)
  }

  lemma KeptAreSafe(items: seq<Value>, methods: set<string>)
    requires NoneHidden(Array(items), methods)
    ensures AllSafe(Kept(items, methods), methods)
  {
    var kept := Kept(items, methods);
    forall i | 0 <= i < |kept| ensures !Hidden(kept[i], methods) && NoneHidden(kept[i], methods) {
      var j := IndexIn(kept[i], items);
      assert kept[i] in kept;
    }
  }

  lemma SafeMeansNoneHidden(items: seq<Value>, methods: set<string>)
    requires AllSafe(Kept(items, methods), methods)
    ensures NoneHidden(Array(items), methods)
  {
    forall i | 0 <= i < |items| && !IsExperimental(items[i], methods)
      ensures !Hidden(items[i], methods) && NoneHidden(items[i], methods)
    {
      var j := IndexIn(items[i], Kept(items, methods));
    }
  }

  /** Every `enum` array holds strings only, as a caller can see. */
  predicate EnumsHoldStrings(v: Value) {
    match v
    case Array(items) => forall i :: 0 <= i < |items| ==> EnumsHoldStrings(items[i])
    case Object(fields) =>
      && (HasEnum(fields) ==> forall i :: 0 <= i < |fields["enum"].items| ==> fields["enum"].items[i].Str?)
      && forall k :: k in fields ==> EnumsHoldStrings(fields[k])
    case _ => true
  }

  lemma StringsHideNothing(v: Value, methods: set<string>)
    requires EnumsHoldStrings(v)
    ensures !Hidden(v, methods)
  {
    if MethodSchema(v).Some? {
      var properties := v.fields["properties"];
      assert EnumsHoldStrings(properties) && EnumsHoldStrings(properties.fields["method"]);
      var m := MethodSchema(v).value;
      if HasEnum(m) {
        AllKept(m["enum"].items, methods);
      }
    }
  }

  lemma {:induction false} NothingHiddenAmongStrings(v: Value, methods: set<string>)
    requires EnumsHoldStrings(v)
    ensures NoneHidden(v, methods)
    decreases v
  {
    match v
    case Array(items) =>
      forall i | 0 <= i < |items| ensures !Hidden(items[i], methods) && NoneHidden(items[i], methods) {
        StringsHideNothing(items[i], methods);
        NothingHiddenAmongStrings(items[i], methods);
      }
    case Object(fields) =>
      forall k | k in fields ensures NoneHidden(fields[k], methods) {
        NothingHiddenAmongStrings(fields[k], methods);
      }
    case _ =>
  }

  /** In schemas whose `enum` arrays hold strings, no experimental variant remains. */
  lemma PruningIsComplete(v: Value, methods: set<string>)
    requires EnumsHoldStrings(v)
    ensures Clean(Prune(v, methods), methods)
  {
    NothingHiddenAmongStrings(v, methods);
    PruningLeavesNone(v, methods);
  }

  lemma {:induction false} CleanIsKept(v: Value, methods: set<string>)
    requires Clean(v, methods)
    ensures Prune(v, methods) == v
    decreases v
  {
    match v
    case Array(items) =>
      AllKept(items, methods);
      var left := Prune(v, methods).items;
      forall i | 0 <= i < |items| ensures left[i] == items[i] {
        CleanIsKept(items[i], methods);
      }
      assert left == items;
    case Object(fields) =>
      forall k | k in fields ensures Prune(fields[k], methods) == fields[k] {
        CleanIsKept(fields[k], methods);
      }
    case _ =>
  }

  lemma {:induction false} AllKept(items: seq<Value>, methods: set<string>)
    requires forall i :: 0 <= i < |items| ==> !IsExperimental(items[i], methods)
    ensures Kept(items, methods) == items
  {
    if items != [] {
      var front := items[..|items| - 1];
      AllKept(front, methods);
      assert front + [items[|items| - 1]] == items;
    }
  }

  /** Pruning again changes nothing, under the same condition. */
  lemma PruningTwice(v: Value, methods: set<string>)
    requires NoneHidden(v, methods)
    ensures Prune(Prune(v, methods), methods) == Prune(v, methods)
  {
    PruningLeavesNone(v, methods);
    CleanIsKept(Prune(v, methods), methods);
  }

  // ----- a variant that survives -----

  function VariantOf(schema: map<string, Value>): Value {
    Object(map["properties" := Object(map["method" := Object(schema)])])
  }

  lemma VariantSchema(schema: map<string, Value>)
    ensures MethodSchema(VariantOf(schema)) == Some(schema)
  {
  }

  /** An `enum` with an experimental method and an experimental variant beside it: the variant goes, the
      method alone is left, and the item that holds it stays. */
  lemma HiddenVariantRemains(name: string, hidden: Value)
    requires hidden == VariantOf(map["enum" := Array([Str(name), VariantOf(map["const" := Str(name)])])])
    ensures !Clean(Prune(Array([hidden]), {name}), {name})
  {
    var variant := VariantOf(map["const" := Str(name)]);
    VariantSchema(map["const" := Str(name)]);
    var schema := map["enum" := Array([Str(name), variant])];
    VariantSchema(schema);
    assert [Str(name), variant][..1] == [Str(name)];
    AllKept([Str(name)], {name});
    assert IsExperimental(variant, {name});
    assert Kept([Str(name), variant], {name}) == [Str(name)];
    assert Hidden(hidden, {name}) && !IsExperimental(hidden, {name});
    assert [hidden][0] == hidden;
    PruningLeavesNone(Array([hidden]), {name});
  }
}
