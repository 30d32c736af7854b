/** Flattening keeps the meaning of references: what a reference of the flat document points at
    is the flattened form of what the original reference pointed at. */
module FlatMeaning {
  import opened Text
  import opened Json
  import opened References
  import opened Reachability
  import opened FlatSchema

  /** A bundle taken apart: its root map, its definition map and its `v2` namespace. */
  ghost predicate Splits(bundle: Value, root: map<string, Value>, definitions: map<string, Value>, v2: map<string, Value>) {
    && bundle == Object(root)
    && "definitions" in root && root["definitions"] == Object(definitions)
    && "v2" in definitions && definitions["v2"] == Object(v2)
  }

  /** `#/definitions/Name`, and not the namespace itself. */
  predicate RootRef(r: string) {
    DEFS <= r && Slashless(r[|DEFS|..]) && r[|DEFS|..] != "v2"
  }

  /** `#/definitions/v2/Name` */
  predicate V2Ref(r: string) {
    V2_DEFS <= r && Slashless(r[|V2_DEFS|..])
  }

  /** The root names that survive flattening. */
  ghost function Retained(definitions: map<string, Value>): set<string> {
    Pulled(definitions) + SharedNames(definitions)
  }

  /** Local references resolve and have one of the two shapes; v2 schemas refer only to v2; nothing
      outside the definition maps needs a root name that flattening drops. */
  ghost predicate WellReferenced(bundle: Value, root: map<string, Value>, definitions: map<string, Value>, v2: map<string, Value>) {
    && Splits(bundle, root, definitions, v2)
    && !HoldsRef(definitions) && !HoldsRef(v2)
    && (forall r :: r in Refs(bundle) && DEFS <= r ==> (RootRef(r) || V2Ref(r)) && Resolve(bundle, r).Some?)
    && (forall r :: r in Refs(Object(v2)) && DEFS <= r ==> V2Ref(r))
    && (forall r :: r in OuterRefs(root) && RootRef(r) ==> r[|DEFS|..] in Retained(definitions))
  }

  ghost function OuterRefs(root: map<string, Value>): set<string> {
    Refs(Object(root - {"definitions"}))
  }

  /** References of everything the flat document keeps, before they are rewritten. */
  ghost function RetainedRefs(root: map<string, Value>, definitions: map<string, Value>, v2: map<string, Value>): set<string> {
    OuterRefs(root) + Refs(Object(v2))
    + (set n, r | n in definitions && n in Retained(definitions) && n != "v2" && r in Refs(definitions[n]) :: r)
  }

  ghost function FlatMap(definitions: map<string, Value>, v2: map<string, Value>): map<string, Value> {
    FlatDefinitions(definitions, v2, Pulled(definitions))
  }

  ghost function FlatDocument(root: map<string, Value>, definitions: map<string, Value>, v2: map<string, Value>): Value {
    MapRefs(Object(Unrewritten(root, FlatMap(definitions, v2))), Flatten)
  }

  // ----- what a reference points at, before and after -----

  lemma RootResolvesTo(bundle: Value, root: map<string, Value>, definitions: map<string, Value>, v2: map<string, Value>, r: string)
    requires Splits(bundle, root, definitions, v2) && RootRef(r) && Resolve(bundle, r).Some?
    ensures r[|DEFS|..] in definitions && Resolve(bundle, r) == Some(definitions[r[|DEFS|..]])
  {
    var n := r[|DEFS|..];
    assert r == DEFS + n;
    ResolveRoot(bundle, n);
    assert ["definitions", n][1..] == [n];
    assert Lookup(root["definitions"], [n]) == Resolve(bundle, r);
    LookupOne(definitions, n);
  }

  lemma V2ResolvesTo(bundle: Value, root: map<string, Value>, definitions: map<string, Value>, v2: map<string, Value>, r: string)
    requires Splits(bundle, root, definitions, v2) && V2Ref(r) && Resolve(bundle, r).Some?
    ensures r[|V2_DEFS|..] in v2 && Resolve(bundle, r) == Some(v2[r[|V2_DEFS|..]])
  {
    var n := r[|V2_DEFS|..];
    assert r == DEFS + "v2" + "/" + n;
    ResolveNamespaced(bundle, "v2", n);
    assert ["definitions", "v2", n][1..] == ["v2", n];
    assert Lookup(root["definitions"], ["v2", n]) == Resolve(bundle, r);
    assert ["v2", n][1..] == [n];
    assert Lookup(definitions["v2"], [n]) == Resolve(bundle, r);
    LookupOne(v2, n);
  }

  function TargetName(r: string): string
    requires RootRef(r) || V2Ref(r)
  {
    if V2Ref(r) then r[|V2_DEFS|..] else r[|DEFS|..]
  }

  lemma FlattenedForm(r: string)
    requires RootRef(r) || V2Ref(r)
    ensures Flatten(r) == DEFS + TargetName(r) && Slashless(TargetName(r))
  {
    if V2Ref(r) {
      assert r == V2_DEFS + TargetName(r);
      FlattenV2(TargetName(r));
    } else {
      assert r == DEFS + TargetName(r);
      FlattenRoot(TargetName(r));
    }
  }

  lemma RewrittenLookup(document: map<string, Value>, flat: map<string, Value>, n: string)
    requires Slashless(n) && !HoldsRef(flat) && n in flat
    requires "definitions" in document && document["definitions"] == Object(flat)
    ensures Resolve(MapRefs(Object(document), Flatten), DEFS + n) == Some(MapRefs(flat[n], Flatten))
  {
    var rewritten := MapRefs(Object(document), Flatten);
    assert rewritten.fields["definitions"] == MapRefs(Object(flat), Flatten);
    ResolveRoot(rewritten, n);
    assert ["definitions", n][1..] == [n];
    assert [n][1..] == [];
    assert Lookup(MapRefs(Object(flat), Flatten), [n]) == Some(MapRefs(flat[n], Flatten));
  }

  lemma FlatMapHoldsNoRef(definitions: map<string, Value>, v2: map<string, Value>)
    requires !HoldsRef(definitions) && !HoldsRef(v2)
    ensures !HoldsRef(FlatMap(definitions, v2))
  {
  }

  // ----- which references survive -----

  /** A retained root schema needs only retained root names. */
  lemma RetainedIsClosed(definitions: map<string, Value>, n: string, r: string)
    requires n in definitions && n in Retained(definitions) && r in Refs(definitions[n])
    requires RootRef(r) && !(V2_DEFS <= r)
    ensures r[|DEFS|..] in Pulled(definitions)
  {
    var m := r[|DEFS|..];
    assert m in NonV2Names(definitions[n]);
    ReachableSetIsLeast(Dependents(definitions), SharedRefs(definitions), Pulled(definitions));
    if n in Pulled(definitions) {
      assert m in Dependents(definitions)(n);
    } else {
      assert m in SharedRefs(definitions);
    }
  }

  /** Every local reference of the retained content names an entry of the flat map. */
  lemma RetainedRefNamed(bundle: Value, root: map<string, Value>, definitions: map<string, Value>, v2: map<string, Value>, r: string)
    requires WellReferenced(bundle, root, definitions, v2)
    requires r in RetainedRefs(root, definitions, v2) && DEFS <= r
    ensures r in Refs(bundle) && (RootRef(r) || V2Ref(r)) && Resolve(bundle, r).Some?
    ensures TargetName(r) in FlatMap(definitions, v2)
    ensures !V2Ref(r) ==> TargetName(r) in definitions && TargetName(r) in Retained(definitions)
    ensures V2Ref(r) ==> TargetName(r) in v2
  {
    RetainedInBundle(bundle, root, definitions, v2, r);
    if V2Ref(r) {
      V2ResolvesTo(bundle, root, definitions, v2, r);
    } else {
      RootResolvesTo(bundle, root, definitions, v2, r);
      V2HasSlash(r);
      if r !in OuterRefs(root) {
        assert r !in Refs(Object(v2));
        var n :| n in definitions && n in Retained(definitions) && n != "v2" && r in Refs(definitions[n]);
        RetainedIsClosed(definitions, n, r);
      }
    }
  }

  lemma RetainedInBundle(bundle: Value, root: map<string, Value>, definitions: map<string, Value>, v2: map<string, Value>, r: string)
    requires Splits(bundle, root, definitions, v2) && r in RetainedRefs(root, definitions, v2)
    ensures r in Refs(bundle)
  {
    RefsSplit(root, "definitions");
    if r !in OuterRefs(root) {
      assert r in Refs(Object(definitions)) by {
        if r in Refs(Object(v2)) {
          assert r in Refs(definitions["v2"]);
        }
      }
    }
  }

  /** The unrewritten flat document holds retained references only. */
  lemma FlatRefsRetained(root: map<string, Value>, definitions: map<string, Value>, v2: map<string, Value>, r: string)
    requires !HoldsRef(definitions) && !HoldsRef(v2)
    requires r in Refs(Object(Unrewritten(root, FlatMap(definitions, v2))))
    ensures r in RetainedRefs(root, definitions, v2)
  {
    var flat := FlatMap(definitions, v2);
    var document := Unrewritten(root, flat);
    FlatMapHoldsNoRef(definitions, v2);
    RefsSplit(document, "definitions");
    if r in Refs(Object(flat)) {
      var n :| n in flat && r in Refs(flat[n]);
      FlatEntryRefs(root, definitions, v2, n, r);
    } else {
      var outer, outer' := root - {"definitions"}, document - {"definitions"};
      assert outer' == outer["title" := document["title"]];
      RetitledRefs(outer, document["title"], r);
    }
  }

  lemma RetitledRefs(fields: map<string, Value>, title: Value, r: string)
    requires title.Str? && r in Refs(Object(fields["title" := title]))
    ensures r in Refs(Object(fields))
  {
    var retitled := fields["title" := title];
    RefsSplit(retitled, "title");
    assert retitled - {"title"} == fields - {"title"};
    if "title" in fields {
      RefsSplit(fields, "title");
    } else {
      assert fields - {"title"} == fields;
    }
  }

  /** Where an entry of the flat map comes from. */
  lemma FlatEntryOrigin(definitions: map<string, Value>, v2: map<string, Value>, pulled: set<string>, n: string)
    requires n in FlatDefinitions(definitions, v2, pulled)
    ensures
      var entry := FlatDefinitions(definitions, v2, pulled)[n];
      || (n in definitions && n in pulled + SharedNames(definitions) && n != "v2" && entry == definitions[n])
      || (n in v2 && entry == v2[n])
  {
    assert "v2" !in SHARED;
    var picked := map m | m in pulled && m in definitions && m != "v2" && m !in v2 :: definitions[m];
    var shared := map m | m in SharedNames(definitions) :: definitions[m];
    assert FlatDefinitions(definitions, v2, pulled) == v2 + picked + shared;
  }

  lemma FlatEntryRefs(root: map<string, Value>, definitions: map<string, Value>, v2: map<string, Value>, n: string, r: string)
    requires n in FlatMap(definitions, v2) && r in Refs(FlatMap(definitions, v2)[n])
    ensures r in RetainedRefs(root, definitions, v2)
  {
    FlatEntryOrigin(definitions, v2, Pulled(definitions), n);
    if !(n in definitions && n in Retained(definitions) && n != "v2" && r in Refs(definitions[n])) {
      assert r in Refs(Object(v2));
    }
  }

  // ----- the theorems -----

  /** A reference of the flat document comes from a retained one and names an entry of the flat map. */
  lemma FlatRefNamed(bundle: Value, root: map<string, Value>, definitions: map<string, Value>, v2: map<string, Value>, r: string)
    requires WellReferenced(bundle, root, definitions, v2)
    requires r in Refs(FlatDocument(root, definitions, v2)) && DEFS <= r
    ensures Slashless(r[|DEFS|..]) && r[|DEFS|..] in FlatMap(definitions, v2)
  {
    var q := MapRefsOrigin(Object(Unrewritten(root, FlatMap(definitions, v2))), Flatten, r);
    FlattenKeepsForeign(q);
    FlatRefsRetained(root, definitions, v2, q);
    RetainedRefNamed(bundle, root, definitions, v2, q);
    FlattenedForm(q);
  }

  lemma ChecksPass(document: map<string, Value>, flat: map<string, Value>)
    requires "definitions" in document && document["definitions"] == Object(flat)
    requires forall r :: r in Refs(MapRefs(Object(document), Flatten)) && DEFS <= r ==>
      Slashless(r[|DEFS|..]) && r[|DEFS|..] in flat
    ensures Checked(MapRefs(Object(document), Flatten)) == Ok(MapRefs(Object(document), Flatten))
  {
    var rewritten := MapRefs(Object(document), Flatten);
    assert rewritten.fields["definitions"] == MapRefs(Object(flat), Flatten);
    var kept := rewritten.fields["definitions"].fields;
    assert kept.Keys == flat.Keys;
    forall r | r in Refs(rewritten) && DEFS <= r
      ensures !(V2_DEFS <= r) && FirstSegment(r[|DEFS|..]) in kept
    {
      SegmentsSingle(r[|DEFS|..]);
      V2HasSlash(r);
    }
    forall r | r in Refs(rewritten) ensures !(V2_DEFS <= r) {
      assert !(DEFS <= r) ==> !(V2_DEFS <= r);
    }
    assert MissingNames(rewritten, kept) == {};
  }

  /** Under these conditions the exporter accepts the flat document. */
  lemma FlatteningSucceeds(bundle: Value, root: map<string, Value>, definitions: map<string, Value>, v2: map<string, Value>)
    requires WellReferenced(bundle, root, definitions, v2)
    ensures FlatV2(bundle) == Ok(FlatDocument(root, definitions, v2))
  {
    var flat := FlatMap(definitions, v2);
    forall r | r in Refs(FlatDocument(root, definitions, v2)) && DEFS <= r
      ensures Slashless(r[|DEFS|..]) && r[|DEFS|..] in flat
    {
      FlatRefNamed(bundle, root, definitions, v2, r);
    }
    ChecksPass(Unrewritten(root, flat), flat);
  }

  /** A flattened reference that passes both checks: out of the namespace, and naming a retained definition. */
  predicate Passes(r: string, flat: map<string, Value>) {
    !(V2_DEFS <= r) && (DEFS <= r ==> FirstSegment(r[|DEFS|..]) in flat)
  }

  lemma NoneMissing(document: Value, definitions: map<string, Value>)
    ensures MissingNames(document, definitions) == {} <==>
      forall r :: r in Refs(document) && DEFS <= r ==> FirstSegment(r[|DEFS|..]) in definitions
  {
    forall r | r in Refs(document) && DEFS <= r
      ensures FirstSegment(r[|DEFS|..]) in definitions || FirstSegment(r[|DEFS|..]) in MissingNames(document, definitions)
    {
    }
  }

  lemma CheckedExact(document: map<string, Value>, flat: map<string, Value>, result: Result<Value, FlatError>)
    requires "definitions" in document && document["definitions"] == Object(flat)
    requires result == Checked(MapRefs(Object(document), Flatten))
    ensures result.Ok? <==> forall q :: q in Refs(Object(document)) ==> Passes(Flatten(q), flat)
    ensures result == Err(StillNamespaced) <==> exists q :: q in Refs(Object(document)) && V2_DEFS <= Flatten(q)
  {
    var rewritten := MapRefs(Object(document), Flatten);
    RefsOfMapRefs(Object(document), Flatten);
    assert rewritten.fields["definitions"] == MapRefs(Object(flat), Flatten);
    var kept := rewritten.fields["definitions"].fields;
    assert kept.Keys == flat.Keys;
    forall q | q in Refs(Object(document)) ensures Flatten(q) in Refs(rewritten) {
    }
    forall r | r in Refs(rewritten) ensures exists q :: q in Refs(Object(document)) && Flatten(q) == r {
    }
    NoneMissing(rewritten, kept);
  }

  /** Exactly when a bundle with a v2 namespace is accepted: every reference of the retained content, once
      flattened, is out of the namespace and names a retained definition. */
  lemma FlatteningExact(bundle: Value, root: map<string, Value>, definitions: map<string, Value>, v2: map<string, Value>, kept: set<string>)
    requires Splits(bundle, root, definitions, v2) && kept == Refs(Object(Unrewritten(root, FlatMap(definitions, v2))))
    ensures FlatV2(bundle).Ok? <==> forall q :: q in kept ==> Passes(Flatten(q), FlatMap(definitions, v2))
    ensures FlatV2(bundle) == Err(StillNamespaced) <==> exists q :: q in kept && V2_DEFS <= Flatten(q)
  {
    var flat := FlatMap(definitions, v2);
    CheckedExact(Unrewritten(root, flat), flat, FlatV2(bundle));
  }

  /** A name defined both at the root and in v2, differently, where the other definition wins. */
  ghost predicate Shadowed(definitions: map<string, Value>, v2: map<string, Value>, r: string)
    requires RootRef(r) || V2Ref(r)
  {
    var n := TargetName(r);
    && n in v2 && n in definitions
    && MapRefs(v2[n], Flatten) != MapRefs(definitions[n], Flatten)
    && (V2Ref(r) <==> n in SharedNames(definitions))
  }

  /** The flattened reference points at the flattened form of the original target. */
  ghost predicate KeepsMeaning(bundle: Value, flat: Value, r: string) {
    && Resolve(bundle, r).Some?
    && Resolve(flat, Flatten(r)) == Some(MapRefs(Resolve(bundle, r).value, Flatten))
  }

  /** Exactly when a retained reference keeps its meaning. */
  lemma FlattenedReferenceExact(bundle: Value, root: map<string, Value>, definitions: map<string, Value>, v2: map<string, Value>, r: string)
    requires WellReferenced(bundle, root, definitions, v2)
    requires r in RetainedRefs(root, definitions, v2) && DEFS <= r
    ensures RootRef(r) || V2Ref(r)
    ensures KeepsMeaning(bundle, FlatDocument(root, definitions, v2), r) <==> !Shadowed(definitions, v2, r)
  {
    RetainedRefNamed(bundle, root, definitions, v2, r);
    FlattenedForm(r);
    FlatMapHoldsNoRef(definitions, v2);
    var n, flat := TargetName(r), FlatMap(definitions, v2);
    RewrittenLookup(Unrewritten(root, flat), flat, n);
    if V2Ref(r) {
      V2ResolvesTo(bundle, root, definitions, v2, r);
      assert flat[n] == if n in SharedNames(definitions) then definitions[n] else v2[n];
    } else {
      RootResolvesTo(bundle, root, definitions, v2, r);
      assert flat[n] == if n in v2 && n !in SharedNames(definitions) then v2[n] else definitions[n];
    }
  }

  /** Without names defined on both sides, flattening succeeds and keeps every reference's meaning. */
  lemma FlatteningKeepsMeaning(bundle: Value, root: map<string, Value>, definitions: map<string, Value>, v2: map<string, Value>)
    requires WellReferenced(bundle, root, definitions, v2)
    requires forall n :: n in Retained(definitions) && n in definitions ==> n !in v2
    ensures FlatV2(bundle).Ok?
    ensures forall r :: r in RetainedRefs(root, definitions, v2) && DEFS <= r ==>
      KeepsMeaning(bundle, FlatV2(bundle).value, r)
  {
    FlatteningSucceeds(bundle, root, definitions, v2);
    forall r | r in RetainedRefs(root, definitions, v2) && DEFS <= r
      ensures KeepsMeaning(bundle, FlatV2(bundle).value, r)
    {
      RetainedRefNamed(bundle, root, definitions, v2, r);
      FlattenedReferenceExact(bundle, root, definitions, v2, r);
    }
  }

  /** `ClientRequest` needs the root `Foo`, and v2 has a `Foo` of its own. */
  function ClashingDefinitions(): map<string, Value> {
    map["v2" := Object(map["Foo" := Number(2)]),
        "Foo" := Number(1),
        "ClientRequest" := Object(map[REF_KEY := Str(DEFS + "Foo")])]
  }

  lemma ClashingRefs()
    ensures Refs(Object(ClashingDefinitions())) == {DEFS + "Foo"}
    ensures Refs(ClashingDefinitions()["ClientRequest"]) == {DEFS + "Foo"}
    ensures Refs(Object(map["Foo" := Number(2)])) == {}
  {
    var d := ClashingDefinitions();
    assert Refs(d["v2"]) == {} && Refs(d["Foo"]) == {};
    assert Refs(d["ClientRequest"]) == {DEFS + "Foo"};
    RefsOfEntry(d, "ClientRequest", DEFS + "Foo");
    assert forall k :: k in d ==> k == "v2" || k == "Foo" || k == "ClientRequest";
  }

  lemma FooIsRootRef()
    ensures RootRef(DEFS + "Foo") && !V2Ref(DEFS + "Foo") && TargetName(DEFS + "Foo") == "Foo"
  {
    var r := DEFS + "Foo";
    assert r[|DEFS|..] == "Foo" && r[|DEFS|] == 'F';
  }

  /** A bundle with one entry, whose only reference resolves to a root name, is well referenced. */
  lemma OneRefWellReferenced(root: map<string, Value>, d: map<string, Value>, v2: map<string, Value>, n: string)
    requires root == map["definitions" := Object(d)] && !HoldsRef(d) && !HoldsRef(v2)
    requires "v2" in d && d["v2"] == Object(v2) && Refs(Object(d)) == {DEFS + n} && Refs(Object(v2)) == {}
    requires RootRef(DEFS + n) && Slashless(n) && n in d
    ensures WellReferenced(Object(root), root, d, v2) && Refs(Object(root)) == {DEFS + n}
  {
    RefsSplit(root, "definitions");
    assert root - {"definitions"} == map[];
    ResolveRoot(Object(root), n);
    assert ["definitions", n][1..] == [n];
    LookupOne(d, n);
  }

  lemma ClashingIsWellReferenced(root: map<string, Value>)
    requires root == map["definitions" := Object(ClashingDefinitions())]
    ensures WellReferenced(Object(root), root, ClashingDefinitions(), map["Foo" := Number(2)])
    ensures Refs(Object(root)) == {DEFS + "Foo"}
  {
    ClashingRefs();
    FooIsRootRef();
    OneRefWellReferenced(root, ClashingDefinitions(), map["Foo" := Number(2)], "Foo");
  }

  lemma ClashingIsRetained(root: map<string, Value>)
    requires root == map["definitions" := Object(ClashingDefinitions())]
    ensures DEFS + "Foo" in RetainedRefs(root, ClashingDefinitions(), map["Foo" := Number(2)])
  {
    ClashingRefs();
    assert SHARED[0] == "ClientRequest";
    assert "ClientRequest" in Retained(ClashingDefinitions());
  }

  lemma ClashingShadows()
    requires RootRef(DEFS + "Foo")
    ensures Shadowed(ClashingDefinitions(), map["Foo" := Number(2)], DEFS + "Foo")
  {
    FooIsRootRef();
  }

  /** A root name that v2 also defines, differently: the exporter accepts the flat document, and a
      reference to the root name now finds the v2 schema. */
  lemma SharedNameChangesMeaning(bundle: Value, root: map<string, Value>)
    requires root == map["definitions" := Object(ClashingDefinitions())] && bundle == Object(root)
    ensures FlatV2(bundle).Ok? && DEFS + "Foo" in Refs(bundle) && Resolve(bundle, DEFS + "Foo").Some?
    ensures !KeepsMeaning(bundle, FlatV2(bundle).value, DEFS + "Foo")
  {
    var d, v2 := ClashingDefinitions(), map["Foo" := Number(2)];
    FooIsRootRef();
    ClashingIsWellReferenced(root);
    ClashingIsRetained(root);
    ClashingShadows();
    FlatteningSucceeds(bundle, root, d, v2);
    FlattenedReferenceExact(bundle, root, d, v2, DEFS + "Foo");
  }
}
