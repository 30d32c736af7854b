/** What the sweep keeps: exactly the reachable definitions, nothing twice, and no reference
    of retained content loses its target. */
module SweepMeaning {
  import opened Text
  import opened Json
  import opened References
  import opened Reachability
  import opened MarkSweep

  lemma OutsideIgnoresDefinitions(v: Value, d: map<string, Value>)
    requires v.Object?
    ensures OutsideMaps(Object(v.fields["definitions" := Object(d)])) == OutsideMaps(v)
  {
    var w := Object(v.fields["definitions" := Object(d)]);
    assert "definitions" in MAP_KEYS;
    assert forall k :: k in v.fields && k !in MAP_KEYS <==> k in w.fields && k !in MAP_KEYS;
    assert OutsideUnder(v.fields, v.fields.Keys) == OutsideUnder(w.fields, w.fields.Keys);
    OutsideParts(v);
    OutsideParts(w);
  }

  lemma {:induction false} KeepVariantsTwice(items: seq<Value>, methods: set<string>)
    ensures KeepVariants(KeepVariants(items, methods), methods) == KeepVariants(items, methods)
  {
    if items != [] {
      var before, last := items[..|items| - 1], items[|items| - 1];
      KeepVariantsTwice(before, methods);
      var kept := KeepVariants(before, methods);
      if !IsMethodVariant(last, methods) {
        assert (kept + [last])[..|kept|] == kept;
      }
    }
  }

  /** Sweeping does not change what is reachable. */
  lemma MarkedAfterSweep(start: set<string>, d: map<string, Value>, names: set<string>)
    requires IsReachableSet(Uses(d), start, names)
    ensures IsReachableSet(Uses(Swept(d, names)), start, names)
  {
    forall n | n in names ensures Uses(Swept(d, names))(n) == Uses(d)(n) {
    }
    SameReach(Uses(d), Uses(Swept(d, names)), start, names);
  }

  /** The retained definitions are exactly those reachable from references outside the definition
      maps, in the original graph and in the graph that is left. */
  lemma SweepIsExact(v: Value, methods: set<string>, d: map<string, Value>)
    requires HasVariants(v) && Definitions(v) == Some(d)
    ensures Definitions(Strip(v, methods)).Some?
    ensures var out := Strip(v, methods);
      var kept := Definitions(out).value;
      && (forall n :: n in kept <==> n in d && Reachable(Uses(d), Targets(OutsideMaps(out)), n))
      && (forall n :: n in kept <==> n in d && Reachable(Uses(kept), Targets(OutsideMaps(out)), n))
      && (forall n :: n in kept ==> kept[n] == d[n])
  {
    var w := DropVariants(v, methods);
    assert Definitions(w) == Some(d);
    var names := Marked(w, d);
    OutsideIgnoresDefinitions(w, Swept(d, names));
    MarkedAfterSweep(Targets(OutsideMaps(w)), d, names);
  }

  lemma SweepTwice(w: Value, d: map<string, Value>)
    requires w.Object? && Definitions(w) == Some(d)
    ensures Sweep(Sweep(w)) == Sweep(w)
  {
    var names := Marked(w, d);
    var kept := Swept(d, names);
    var out := Object(w.fields["definitions" := Object(kept)]);
    assert Definitions(out) == Some(kept);
    OutsideIgnoresDefinitions(w, kept);
    MarkedAfterSweep(Targets(OutsideMaps(w)), d, names);
    assert Marked(out, kept) == names;
    assert Swept(kept, names) == kept;
    assert out.fields["definitions" := Object(kept)] == out.fields;
  }

  lemma SweepKeepsVariants(w: Value)
    requires HasVariants(w)
    ensures HasVariants(Sweep(w)) && Sweep(w).fields["oneOf"] == w.fields["oneOf"]
  {
  }

  /** Stripping again changes nothing. */
  lemma StripTwice(v: Value, methods: set<string>)
    ensures Strip(Strip(v, methods), methods) == Strip(v, methods)
  {
    if HasVariants(v) {
      var w := DropVariants(v, methods);
      SweepKeepsVariants(w);
      KeepVariantsTwice(v.fields["oneOf"].items, methods);
      var out := Sweep(w);
      assert out.fields["oneOf" := out.fields["oneOf"]] == out.fields;
      if Definitions(w).Some? {
        SweepTwice(w, Definitions(w).value);
      }
    }
  }

  /** The reference had a target among `d` and has none among `kept`. */
  predicate Dangles(d: map<string, Value>, kept: map<string, Value>, r: string) {
    DEFS <= r && FirstSegment(r[|DEFS|..]) in d && FirstSegment(r[|DEFS|..]) !in kept
  }

  /** No reference outside the maps or inside a retained definition is left without its target. */
  lemma RetainedRefsKeepTargets(v: Value, methods: set<string>, d: map<string, Value>)
    requires HasVariants(v) && Definitions(v) == Some(d)
    ensures Definitions(Strip(v, methods)).Some?
    ensures var out := Strip(v, methods);
      var kept := Definitions(out).value;
      && (forall r :: r in OutsideMaps(out) ==> !Dangles(d, kept, r))
      && (forall n, r :: n in kept && r in Refs(kept[n]) ==> !Dangles(d, kept, r))
  {
    SweepIsExact(v, methods, d);
    var out := Strip(v, methods);
    var kept := Definitions(out).value;
    var start := Targets(OutsideMaps(out));
    forall r | r in OutsideMaps(out) ensures !Dangles(d, kept, r) {
      if DEFS <= r {
        StartReachable(Uses(d), start, FirstSegment(r[|DEFS|..]));
      }
    }
    forall n, r | n in kept && r in Refs(kept[n]) ensures !Dangles(d, kept, r) {
      if DEFS <= r {
        StepReachable(Uses(d), start, n, FirstSegment(r[|DEFS|..]));
      }
    }
  }

  /** Everything but the root definition map, after the variants are dropped. */
  function Rest(v: Value, methods: set<string>): Value
    requires HasVariants(v)
  {
    Object(DropVariants(v, methods).fields - {"definitions"})
  }

  // ----- the references the marking phase does not see -----

  /** References inside `definitions` and `$defs` maps, at any depth. */
  function InsideMaps(v: Value): set<string> {
    match v
    case Array(items) => set i, r | 0 <= i < |items| && r in InsideMaps(items[i]) :: r
    case Object(fields) =>
      (set k, r | k in fields && k in MAP_KEYS && r in Refs(fields[k]) :: r)
      + (set k, r | k in fields && k !in MAP_KEYS && r in InsideMaps(fields[k]) :: r)
    case _ => {}
  }

  /** Every reference is inside a map or outside all of them. */
  lemma {:induction false} InsideOrOutside(v: Value, r: string)
    ensures r in Refs(v) <==> r in OutsideMaps(v) || r in InsideMaps(v)
  {
    match v
    case Array(items) =>
      forall i | 0 <= i < |items| ensures r in Refs(items[i]) <==> r in OutsideMaps(items[i]) || r in InsideMaps(items[i]) {
        InsideOrOutside(items[i], r);
      }
    case Object(fields) =>
      forall k | k in fields ensures r in Refs(fields[k]) <==> r in OutsideMaps(fields[k]) || r in InsideMaps(fields[k]) {
        InsideOrOutside(fields[k], r);
      }
    case _ =>
  }

  function Start(v: Value, methods: set<string>): set<string>
    requires HasVariants(v)
  {
    Targets(OutsideMaps(Rest(v, methods)))
  }

  lemma RestIsOutside(v: Value, methods: set<string>)
    requires HasVariants(v)
    ensures OutsideMaps(Rest(v, methods)) == OutsideMaps(DropVariants(v, methods))
  {
    var w, rest := DropVariants(v, methods), Rest(v, methods);
    assert HoldsRef(w.fields) <==> HoldsRef(rest.fields);
    assert forall k :: k in w.fields && k !in MAP_KEYS <==> k in rest.fields && k !in MAP_KEYS;
  }

  /** A reference the stripped schema keeps but the marking phase does not follow: it is inside another
      definition map, or it is itself stored as a retained definition named `$ref`. */
  ghost predicate Unfollowed(v: Value, methods: set<string>, d: map<string, Value>, r: string)
    requires HasVariants(v)
  {
    || r in InsideMaps(Rest(v, methods))
    || (HoldsRef(d) && r == d[REF_KEY].s && Reachable(Uses(d), Start(v, methods), REF_KEY))
  }

  /** What those references name is reachable without them. */
  ghost predicate OtherMapsCovered(v: Value, methods: set<string>, d: map<string, Value>)
    requires HasVariants(v)
  {
    forall r :: Unfollowed(v, methods, d, r) && DEFS <= r && FirstSegment(r[|DEFS|..]) in d ==>
      Reachable(Uses(d), Start(v, methods), FirstSegment(r[|DEFS|..]))
  }

  lemma DefinitionRefs(fields: map<string, Value>, kept: map<string, Value>, r: string)
    requires "definitions" in fields && fields["definitions"] == Object(kept)
    ensures r in Refs(Object(fields)) <==>
      || r in Refs(Object(fields - {"definitions"}))
      || (HoldsRef(kept) && r == kept[REF_KEY].s)
      || exists n :: n in kept && r in Refs(kept[n])
  {
    RefsSplit(fields, "definitions");
  }

  /** The definitions that are left, and the rest of the schema, which is left alone. */
  lemma StrippedParts(v: Value, methods: set<string>, d: map<string, Value>, kept: map<string, Value>)
    requires HasVariants(v) && Definitions(v) == Some(d) && Definitions(Strip(v, methods)) == Some(kept)
    ensures Strip(v, methods).Object? && Strip(v, methods).fields - {"definitions"} == Rest(v, methods).fields
    ensures kept == Swept(d, Marked(DropVariants(v, methods), d))
    ensures forall n :: n in kept <==> n in d && Reachable(Uses(d), Start(v, methods), n)
  {
    var w := DropVariants(v, methods);
    assert Definitions(w) == Some(d);
    RestIsOutside(v, methods);
  }

  lemma StrippedRefs(v: Value, methods: set<string>, d: map<string, Value>, kept: map<string, Value>, r: string)
    requires HasVariants(v) && Definitions(v) == Some(d) && Definitions(Strip(v, methods)) == Some(kept)
    ensures r in Refs(Strip(v, methods)) <==>
      || r in OutsideMaps(Rest(v, methods))
      || Unfollowed(v, methods, d, r)
      || exists n :: n in kept && r in Refs(kept[n])
  {
    StrippedParts(v, methods, d, kept);
    DefinitionRefs(Strip(v, methods).fields, kept, r);
    InsideOrOutside(Rest(v, methods), r);
    assert HoldsRef(kept) <==> HoldsRef(d) && Reachable(Uses(d), Start(v, methods), REF_KEY);
  }

  lemma DanglesMeans(v: Value, methods: set<string>, d: map<string, Value>, kept: map<string, Value>, r: string)
    requires HasVariants(v) && forall n :: n in kept <==> n in d && Reachable(Uses(d), Start(v, methods), n)
    ensures Dangles(d, kept, r) <==>
      DEFS <= r && FirstSegment(r[|DEFS|..]) in d && !Reachable(Uses(d), Start(v, methods), FirstSegment(r[|DEFS|..]))
  {
  }

  ghost predicate NothingDangles(v: Value, methods: set<string>, d: map<string, Value>) {
    Definitions(Strip(v, methods)).Some?
    && forall r :: r in Refs(Strip(v, methods)) ==> !Dangles(d, Definitions(Strip(v, methods)).value, r)
  }

  /** Exactly when the whole stripped schema has no newly dangling reference: the marking phase
      never looks into `$defs` or nested `definitions`, so what those need must be reachable anyway. */
  lemma StripLeavesNothingDangling(v: Value, methods: set<string>, d: map<string, Value>)
    requires HasVariants(v) && Definitions(v) == Some(d)
    ensures NothingDangles(v, methods, d) <==> OtherMapsCovered(v, methods, d)
  {
    RetainedRefsKeepTargets(v, methods, d);
    var out := Strip(v, methods);
    var kept := Definitions(out).value;
    StrippedParts(v, methods, d, kept);
    assert OutsideMaps(out) == OutsideMaps(Rest(v, methods)) by {
      OutsideIgnoresDefinitions(DropVariants(v, methods), kept);
      RestIsOutside(v, methods);
    }
    forall r ensures r in Refs(out) && Dangles(d, kept, r) <==> Unfollowed(v, methods, d, r) && Dangles(d, kept, r) {
      StrippedRefs(v, methods, d, kept, r);
    }
    forall r {
      DanglesMeans(v, methods, d, kept, r);
    }
  }

  /** The other definition maps of a schema hold no local reference. */
  ghost predicate MapsAreForeign(v: Value, d: map<string, Value>)
    requires v.Object?
  {
    !HoldsRef(d) && forall r :: r in InsideMaps(Object(v.fields - {"definitions"})) ==> !(DEFS <= r)
  }

  lemma DroppedInside(v: Value, methods: set<string>, r: string)
    requires HasVariants(v) && r in InsideMaps(Rest(v, methods))
    ensures r in InsideMaps(Object(v.fields - {"definitions"}))
  {
    var rest, all := Rest(v, methods).fields, v.fields - {"definitions"};
    var k :| k in rest && r in if k in MAP_KEYS then Refs(rest[k]) else InsideMaps(rest[k]);
    if k == "oneOf" {
      var items, kept := v.fields["oneOf"].items, rest["oneOf"].items;
      var i :| 0 <= i < |kept| && r in InsideMaps(kept[i]);
      assert kept[i] in kept && kept[i] in items;
      var j :| 0 <= j < |items| && items[j] == kept[i];
      assert r in InsideMaps(v.fields["oneOf"]);
    }
    assert k in all;
  }

  /** A condition on the input alone: without local references in other definition maps nothing dangles,
      whatever methods are stripped. */
  lemma NothingHiddenNothingDangles(v: Value, methods: set<string>, d: map<string, Value>)
    requires HasVariants(v) && Definitions(v) == Some(d) && MapsAreForeign(v, d)
    ensures NothingDangles(v, methods, d)
  {
    forall r | Unfollowed(v, methods, d, r) ensures !(DEFS <= r) {
      DroppedInside(v, methods, r);
    }
    StripLeavesNothingDangling(v, methods, d);
  }

  /** A schema whose `$defs` need a definition nothing else needs. */
  function HiddenNeed(): Value {
    Object(map["oneOf" := Array([]), "$defs" := HiddenDefs(), "definitions" := Object(map["Y" := Null])])
  }

  function HiddenDefs(): Value {
    Object(map["X" := Object(map[REF_KEY := Str(DEFS + "Y")])])
  }

  lemma HiddenRef()
    ensures DEFS + "Y" in InsideMaps(Rest(HiddenNeed(), {})) && FirstSegment((DEFS + "Y")[|DEFS|..]) == "Y"
  {
    var r := DEFS + "Y";
    assert r in Refs(HiddenDefs().fields["X"]);
    RefsOfEntry(HiddenDefs().fields, "X", r);
    var rest := Rest(HiddenNeed(), {});
    assert rest.fields["$defs"] == HiddenDefs();
    assert "$defs" in rest.fields && "$defs" in MAP_KEYS;
    assert r[|DEFS|..] == "Y";
    SegmentsSingle("Y");
  }

  lemma NothingIsReached(succ: Graph, n: string)
    ensures !Reachable(succ, {}, n)
  {
  }

  lemma HiddenIsUnreached(d: map<string, Value>)
    ensures !Reachable(Uses(d), Start(HiddenNeed(), {}), "Y")
  {
    HiddenShape();
    var v := HiddenNeed();
    assert OutsideMaps(v.fields["oneOf"]) == {};
    assert OutsideMaps(v) == {};
    RestIsOutside(v, {});
    assert Start(v, {}) == {};
    NothingIsReached(Uses(d), "Y");
  }

  lemma UnreachedDangles(v: Value, methods: set<string>, d: map<string, Value>, r: string, kept: map<string, Value>)
    requires HasVariants(v) && Definitions(v) == Some(d) && Definitions(Strip(v, methods)) == Some(kept)
    requires r in InsideMaps(Rest(v, methods)) && DEFS <= r && FirstSegment(r[|DEFS|..]) in d
    requires !Reachable(Uses(d), Start(v, methods), FirstSegment(r[|DEFS|..]))
    ensures r in Refs(Strip(v, methods)) && Dangles(d, kept, r)
  {
    StrippedParts(v, methods, d, kept);
    StrippedRefs(v, methods, d, kept, r);
  }

  lemma HiddenShape()
    ensures HasVariants(HiddenNeed()) && Definitions(HiddenNeed()) == Some(map["Y" := Null])
    ensures DropVariants(HiddenNeed(), {}) == HiddenNeed()
  {
    assert DropVariants(HiddenNeed(), {}).fields == HiddenNeed().fields;
  }

  /** The sweep drops the definition that only `$defs` needs, and the reference to it dangles. */
  lemma SkippedMapCanDangle(v: Value, d: map<string, Value>)
    requires v == HiddenNeed() && d == map["Y" := Null]
    ensures HasVariants(v) && Definitions(v) == Some(d) && Definitions(Strip(v, {})).Some?
    ensures DEFS + "Y" in Refs(Strip(v, {})) && Dangles(d, Definitions(Strip(v, {})).value, DEFS + "Y")
  {
    HiddenShape();
    HiddenRef();
    HiddenIsUnreached(d);
    SweepIsExact(v, {}, d);
    UnreachedDangles(v, {}, d, DEFS + "Y", Definitions(Strip(v, {})).value);
  }
}
