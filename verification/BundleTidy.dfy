/** A condition on the generated schemas alone under which bundling is closed, and what happens to the tail of
    a reference without it. */
module BundleTidy {
  import opened Text
  import opened Json
  import opened References
  import opened SchemaBundle
  import opened BundleExact
  import opened BundleRefs
  import opened BundleClosed

  predicate HasName(s: GeneratedSchema, m: string) {
    m == s.name || m in LocalDefs(s.value)
  }

  /** The names of a schema are plain: no slashes, no `$defs`, no name the exporter skips. */
  ghost predicate PlainNames(s: GeneratedSchema) {
    && MapUnder(s.value, "$defs") == map[] && s.name !in IGNORED
    && (forall n :: n in LocalDefs(s.value) ==> Slashless(n) && n !in IGNORED + SPECIAL)
    && (s.namespace.Some? ==> forall q :: q in Refs(s.value) ==> !Loose(s.namespace.value, q))
  }

  /** No definition of a root schema is taken for a namespaced type only because its trailing digits are
      stripped. */
  ghost predicate NoDigitAliases(schemas: seq<GeneratedSchema>) {
    forall i, n :: 0 <= i < |schemas| && schemas[i].namespace.None? && n in LocalDefs(schemas[i].value) ==>
      n in NamespacedTypes(schemas) || NamespaceFor(n, NamespacedTypes(schemas)).None?
  }

  /** Every schema that has a name a root schema refers to also has what the rest of the reference names.
      A reference without a tail asks for nothing. */
  ghost predicate TailsAgree(schemas: seq<GeneratedSchema>) {
    forall i, j, q ::
      && 0 <= i < |schemas| && 0 <= j < |schemas| && schemas[i].namespace.None?
      && q in Refs(schemas[i].value) && DEFS <= q && HasName(schemas[j], PathOf(q)[0])
      ==> Lookup(Part(schemas[j], PathOf(q)[0]), PathOf(q)[1..]).Some?
  }

  ghost predicate Tidy(schemas: seq<GeneratedSchema>) {
    && AllSelfContained(schemas) && NamesApart(schemas) && NoDigitAliases(schemas) && TailsAgree(schemas)
    && (forall i :: 0 <= i < |schemas| ==> PlainNames(schemas[i]))
    && (forall i :: 0 <= i < |schemas| && schemas[i].namespace.Some? ==> Slashless(schemas[i].namespace.value))
  }

  // ----- where a type lives -----

  lemma {:induction false} TypeOffered(schemas: seq<GeneratedSchema>, n: string) returns (i: nat)
    requires forall i :: 0 <= i < |schemas| ==> MapUnder(schemas[i].value, "$defs") == map[]
    requires n in NamespacedTypes(schemas)
    ensures i < |schemas| && schemas[i].namespace == Some(NamespacedTypes(schemas)[n]) && HasName(schemas[i], n)
  {
    var k := |schemas| - 1;
    if n in NamespacedTypes(schemas[..k]) {
      i := TypeOffered(schemas[..k], n);
    } else {
      i := k;
      assert MapUnder(schemas[k].value, "$defs").Keys == {};
    }
  }

  lemma OfferedPath(schemas: seq<GeneratedSchema>, job: Job, i: nat, ns: string, path: seq<string>)
    requires i < |schemas| && schemas[i].namespace == Some(ns) && PlainNames(schemas[i]) && IsSchema(schemas[i].value)
    requires OnlyTitles(job.host) && NoRootName(schemas, ns) && |path| > 0
    requires HasName(schemas[i], path[0]) && Lookup(Part(schemas[i], path[0]), path[1..]).Some?
    ensures SlotHas(SlotOf(schemas, job, ns), [ns] + path)
  {
    var s, m, f := schemas[i], path[0], InNamespace(ns);
    var c: Claim;
    if m == s.name {
      c := Claim(ns, m, Body(MapRefs(s.value, f)));
      OneClaim(ns, m, c.schema, map[m := c.schema]);
      MappedBody(s.value, f, path[1..], MapRefs(s.value, f));
    } else {
      DefinitionPath(s.value, path);
      c := ClaimedPath(s, ns, job.host, path);
    }
    NeverWritten(schemas, job, ns);
    ClaimStands(schemas, job.host, job, i, c, -1);
    HeldPath(SlotOf(schemas, job, ns), ns, path, c.schema, [ns] + path);
  }

  // ----- a name at the root -----

  lemma {:induction false} LookupForced(v: Value, forced: seq<(string, string)>, path: seq<string>)
    requires Lookup(v, path).Some?
    ensures Lookup(ForceRefs(v, forced), path).Some?
  {
    if forced != [] {
      var k := |forced| - 1;
      LookupForced(v, forced[..k], path);
      LookupMapped(ForceRefs(v, forced[..k]), Named(forced[k].1, forced[k].0), path);
    }
  }

  lemma MappedDefinition(v: Value, f: string -> string, m: string, path: seq<string>, w: Value)
    requires IsSchema(v) && m in LocalDefs(v) && Lookup(LocalDefs(v)[m], path).Some? && w == MapRefs(v, f)
    ensures m in LocalDefs(w) && Lookup(LocalDefs(w)[m], path).Some?
  {
    var below := [m] + path;
    assert below[0] == m && below[1..] == path;
    DefinitionPath(v, below);
    LookupMapped(v, f, ["definitions"] + below);
    DefinitionPath(w, below);
  }

  lemma MappedBody(v: Value, f: string -> string, path: seq<string>, w: Value)
    requires IsSchema(v) && Lookup(Body(v), path).Some? && w == MapRefs(v, f)
    ensures Lookup(Body(w), path).Some?
  {
    BodyOfMapped(v, f);
    LookupMapped(Body(v), f, path);
  }

  /** What a root schema writes under a name has every path of the part written. */
  lemma WrittenPath(s: GeneratedSchema, job: Job, m: string, path: seq<string>)
    requires s.namespace.None? && IsSchema(s.value) && OnlyTitles(job.host)
    requires m in RootWrites(s, job) && Lookup(Part(s, m), path).Some?
    ensures Lookup(RootWrites(s, job)[m], path).Some?
  {
    var f := Known(job.types);
    var v := MapRefs(s.value, f);
    RootWriteIs(s, job, m, v);
    if m == s.name {
      MappedBody(s.value, f, path, v);
      LookupForced(Body(v), ForcedOf(s, job), path);
    } else {
      MappedDefinition(s.value, f, m, path, v);
    }
  }

  lemma WrittenSlotHas(slot: Slot, path: seq<string>)
    requires |path| > 0 && slot.start.Some? && Lookup(slot.start.value, path[1..]).Some?
    ensures SlotHas(slot, path)
  {
    if |path| > 1 {
      var rest := path[1..];
      var v := Child(slot.start.value, rest[0]).value;
      assert Holds(slot, path[0], path[1], v) && rest[1..] == path[2..];
    }
  }

  /** A root schema writes its definitions that have no namespace. */
  lemma WritesOwnNames(schemas: seq<GeneratedSchema>, job: Job, i: nat, m: string)
    requires i < |schemas| && schemas[i].namespace.None? && schemas[i].name !in IGNORED
    requires m in KeptNames(LocalDefs(schemas[i].value)) && NamespaceFor(m, job.types).None?
    ensures LastWrite(schemas, job, m) >= i
  {
    RewriteKeepsNames(schemas[i].value, Known(job.types));
  }

  lemma RootPath(schemas: seq<GeneratedSchema>, job: Job, i: nat, q: string)
    requires Tidy(schemas) && OnlyTitles(job.host) && i < |schemas| && schemas[i].namespace.None?
    requires q in Refs(schemas[i].value) && DEFS <= q && PathOf(q)[0] in LocalDefs(schemas[i].value)
    requires NamespaceFor(PathOf(q)[0], job.types).None?
    ensures Lands(schemas, job, q)
  {
    var path := PathOf(q);
    var m := path[0];
    WritesOwnNames(schemas, job, i, m);
    var j := LastWrite(schemas, job, m);
    RewriteKeepsNames(schemas[j].value, Known(job.types));
    WrittenPath(schemas[j], job, m, path[1..]);
    WrittenSlotHas(SlotOf(schemas, job, m), path);
  }

  // ----- the forced pass finds nothing to do -----

  lemma NamedKeepsOther(q: string, ns: string, name: string)
    requires DEFS <= q && Slashless(name) && PathOf(q)[0] != name
    ensures NamedToNamespace(q, ns, name) == q
  {
    var suffix := q[|DEFS|..];
    if q == DEFS + name {
      assert suffix == name;
      SegmentsSingle(name);
    } else if DEFS + name + "/" <= q {
      var rest := q[|DEFS + name + "/"|..];
      assert suffix == name + "/" + rest;
      SegmentsSplit(name, rest);
    }
  }

  lemma RedirectIs(schemas: seq<GeneratedSchema>, job: Job, i: nat, x: string, q: string)
    requires Tidy(schemas) && job.types == NamespacedTypes(schemas) && i < |schemas| && schemas[i].namespace.None?
    requires DEFS <= q
    ensures Redirect(schemas[i], job, x, q) == ToKnownNamespace(q, job.types)
  {
    var s, types, r := schemas[i], job.types, ToKnownNamespace(q, job.types);
    ForcedPairs(job.host.order(LocalDefs(s.value).Keys), LocalDefs(s.value), s.inV1, types);
    forall p | p in ForcedOf(s, job) ensures NamedToNamespace(r, p.1, p.0) == r {
      ForcedKeeps(schemas, i, types, q, p.0, p.1);
    }
    ForceIdle(r, ForcedOf(s, job));
  }

  lemma ForcedKeeps(schemas: seq<GeneratedSchema>, i: nat, types: map<string, string>, q: string, name: string, ns: string)
    requires Tidy(schemas) && types == NamespacedTypes(schemas) && i < |schemas| && schemas[i].namespace.None?
    requires DEFS <= q && name in LocalDefs(schemas[i].value) && NamespaceFor(name, types) == Some(ns)
    ensures NamedToNamespace(ToKnownNamespace(q, types), ns, name) == ToKnownNamespace(q, types)
  {
    assert PlainNames(schemas[i]);
    var m := PathOf(q)[0];
    if NamespaceFor(m, types).Some? {
      var other := NamespaceFor(m, types).value;
      var j := NamespaceOffered(schemas, m, other);
      NamedKeepsNamespaced(ns, name, other, q[|DEFS|..]);
    } else {
      NamedKeepsOther(q, ns, name);
    }
  }

  lemma NamespaceOffered(schemas: seq<GeneratedSchema>, m: string, ns: string) returns (i: nat)
    requires Tidy(schemas) && NamespaceFor(m, NamespacedTypes(schemas)) == Some(ns)
    ensures i < |schemas| && schemas[i].namespace == Some(ns) && (m in NamespacedTypes(schemas) ==> HasName(schemas[i], m))
  {
    assert forall i :: 0 <= i < |schemas| ==> PlainNames(schemas[i]);
    i := TypeOffered(schemas, if m in NamespacedTypes(schemas) then m else TrimDigits(m));
  }

  // ----- the corollary -----

  lemma RootRefFound(s: GeneratedSchema, q: string)
    requires SelfContained(s) && q in Refs(s.value) && DEFS <= q
    ensures PathOf(q)[0] in LocalDefs(s.value)
  {
    ResolvePath(s.value, q);
    DefinitionPath(s.value, PathOf(q));
  }

  lemma TargetHas(schemas: seq<GeneratedSchema>, job: Job, i: nat, j: nat, ns: string, q: string, path: seq<string>)
    requires Tidy(schemas) && OnlyTitles(job.host) && i < |schemas| && j < |schemas|
    requires schemas[i].namespace.None? && q in Refs(schemas[i].value) && DEFS <= q && path == PathOf(q)
    requires schemas[j].namespace == Some(ns) && HasName(schemas[j], path[0])
    ensures SlotHas(SlotOf(schemas, job, ns), [ns] + path)
  {
    assert PlainNames(schemas[j]) && SelfContained(schemas[j]);
    OfferedPath(schemas, job, j, ns, path);
  }

  lemma NamespacedRefLands(schemas: seq<GeneratedSchema>, job: Job, i: nat, ns: string, q: string, r: string)
    requires Tidy(schemas) && OnlyTitles(job.host) && job.types == NamespacedTypes(schemas)
    requires i < |schemas| && schemas[i].namespace.None? && q in Refs(schemas[i].value) && DEFS <= q
    requires PathOf(q)[0] in LocalDefs(schemas[i].value) && NamespaceFor(PathOf(q)[0], job.types) == Some(ns)
    requires r == DEFS + ns + "/" + q[|DEFS|..]
    ensures Lands(schemas, job, r)
  {
    var j := NamespaceOffered(schemas, PathOf(q)[0], ns);
    MovedPath(ns, q, r);
    TargetHas(schemas, job, i, j, ns, q, PathOf(q));
  }

  lemma TidyRefLands(schemas: seq<GeneratedSchema>, job: Job, i: nat, x: string, q: string)
    requires Tidy(schemas) && OnlyTitles(job.host) && job.types == NamespacedTypes(schemas)
    requires i < |schemas| && schemas[i].namespace.None? && q in Refs(schemas[i].value) && DEFS <= q
    ensures Lands(schemas, job, Redirect(schemas[i], job, x, q))
  {
    var path := PathOf(q);
    RootRefFound(schemas[i], q);
    RedirectIs(schemas, job, i, x, q);
    if NamespaceFor(path[0], job.types).None? {
      RootPath(schemas, job, i, q);
    } else {
      NamespacedRefLands(schemas, job, i, NamespaceFor(path[0], job.types).value, q, ToKnownNamespace(q, job.types));
    }
  }

  lemma PartRefs(s: GeneratedSchema, job: Job, x: string, q: string)
    requires IsSchema(s.value) && x in RootWrites(s, job) && q in EntryRefs(x, Part(s, x))
    ensures q in Refs(s.value)
  {
    RewriteKeepsNames(s.value, Known(job.types));
    RefsOfSchema(s.value, q);
  }

  lemma TidyRootRefsLand(schemas: seq<GeneratedSchema>, job: Job)
    requires Tidy(schemas) && OnlyTitles(job.host) && job.types == NamespacedTypes(schemas)
    ensures RootRefsLand(schemas, job)
  {
    forall x, s, q | Writes(schemas, job, x, s) && q in EntryRefs(x, Part(s, x))
      ensures Lands(schemas, job, Redirect(s, job, x, q))
    {
      PartRefs(s, job, x, q);
      RedirectStaysLocal(s, job, x, q);
      if DEFS <= q {
        TidyRefLands(schemas, job, LastWrite(schemas, job, x), x, q);
      }
    }
  }

  /** Plain names, no namespace named like a root name, no digit aliases and tails that agree: then every
      local reference of the bundle resolves. */
  lemma TidyBundlesAreClosed(schemas: seq<GeneratedSchema>, host: Host)
    requires Tidy(schemas) && OnlyTitles(host) && Bundle(schemas, host).Ok?
    ensures Closed(Bundle(schemas, host).value)
  {
    var job := JobOf(schemas, host);
    TidyRootRefsLand(schemas, job);
    forall i: nat, ns, q | Standing(schemas, job, i, ns) && KeptRef(schemas[i].value, q) ensures !Loose(ns, q) {
      assert PlainNames(schemas[i]);
      RefsOfSchema(schemas[i].value, q);
    }
    BundlingIsClosed(schemas, host, job);
  }

  // ----- a tail that is lost -----

  const TAILED := DEFS + "Foo" + "/" + "x"

  /** `{"$ref": "#/definitions/Foo/x", "definitions": {"Foo": {"x": {}}}}` */
  function WithTail(): GeneratedSchema {
    var definitions := map["Foo" := Object(map["x" := Object(map[])])];
    GeneratedSchema(None, "Bar", Object(map[REF_KEY := Str(TAILED), "definitions" := Object(definitions)]), false)
  }

  lemma TailedPath()
    ensures PathOf(TAILED) == ["Foo", "x"]
  {
    assert TAILED[|DEFS|..] == "Foo" + "/" + "x";
    SegmentsSplit("Foo", "x");
    SegmentsSingle("x");
  }

  lemma WithTailRefs()
    ensures Refs(Body(WithTail().value)) == {TAILED} && Refs(WithTail().value) == {TAILED}
  {
    var v := WithTail().value;
    var inner := map["x" := Object(map[])];
    assert Refs(Object(inner)) == {};
    var definitions := map["Foo" := Object(inner)];
    assert Refs(Object(definitions)) == {};
    var body: map<string, Value> := map[REF_KEY := Str(TAILED)];
    assert v.fields - {"definitions"} == body;
    assert Refs(Object(body)) == {TAILED};
    RefsSplit(v.fields, "definitions");
  }

  lemma WithTailResolves()
    ensures SelfContained(WithTail())
  {
    var v := WithTail().value;
    WithTailRefs();
    TailedPath();
    ResolvePath(v, TAILED);
    DefinitionPath(v, ["Foo", "x"]);
    LookupOne(LocalDefs(v)["Foo"].fields, "x");
    assert ["Foo", "x"][1..] == ["x"];
  }

  const REDIRECTED := DEFS + "v2" + "/" + ("Foo" + "/" + "x")

  lemma TypesOfPair(a: GeneratedSchema, b: GeneratedSchema)
    requires a.namespace.Some? && b.namespace.None?
    ensures NamespacedTypes([a, b]) == map n | n in TypeNames(a) :: a.namespace.value
  {
    assert [a, b][..1] == [a] && [a][..0] == [];
    assert NamespacedTypes([]) == map[];
    assert NamespacedTypes([a]) == map n | n in TypeNames(a) :: a.namespace.value;
  }

  lemma PairAccepted(a: GeneratedSchema, b: GeneratedSchema, host: Host)
    requires Claims(a) && Consistent(ClaimsOf(a, host)) && b.namespace.None?
    ensures Bundle([a, b], host).Ok?
  {
    var schemas, job := [a, b], JobOf([a, b], host);
    FirstIsAdmissible(schemas, job);
    assert AllAdmissible(schemas, 2, job);
    BundlingExact(schemas, host, job);
  }

  lemma OnlyBehind(asked: seq<set<Claim>>, c: Claim)
    requires asked == [{c}, {}]
    ensures Behind(asked, -1, c.ns) == {c}
  {
    assert c in asked[0];
  }

  lemma PairSlot(a: GeneratedSchema, b: GeneratedSchema, job: Job, c: Claim)
    requires a.namespace.Some? && b.namespace.None? && NoRootName([a, b], c.ns) && ClaimsOf(a, job.host) == {c}
    ensures SlotOf([a, b], job, c.ns) == Slot(None, {c})
  {
    NeverWritten([a, b], job, c.ns);
    OnlyBehind(Asked([a, b], job.host), c);
  }

  lemma TailRedirected(s: GeneratedSchema, job: Job)
    requires LocalDefs(s.value).Keys == {"Foo"} && job.types == map["Foo" := "v2"]
    ensures Redirect(s, job, s.name, TAILED) == REDIRECTED
  {
    TailedPath();
    assert ToKnownNamespace(TAILED, job.types) == REDIRECTED;
    ForcedPairs(job.host.order(LocalDefs(s.value).Keys), LocalDefs(s.value), s.inV1, job.types);
    forall p | p in ForcedOf(s, job) ensures NamedToNamespace(REDIRECTED, p.1, p.0) == REDIRECTED {
      NamedKeepsNamespaced(p.1, "Foo", "v2", "Foo" + "/" + "x");
    }
    ForceIdle(REDIRECTED, ForcedOf(s, job));
  }

  lemma TailDoesNotLand(schemas: seq<GeneratedSchema>, job: Job)
    requires SlotOf(schemas, job, "v2") == Slot(None, {Claim("v2", "Foo", Object(map[]))})
    ensures !Lands(schemas, job, REDIRECTED)
  {
    TailedPath();
    MovedPath("v2", TAILED, REDIRECTED);
    var path := PathOf(REDIRECTED);
    assert path[0] == "v2" && path[1] == "Foo" && path[2..] == ["x"];
    LookupOne(map[], "x");
  }

  lemma NotClosed(schemas: seq<GeneratedSchema>, host: Host, job: Job, s: GeneratedSchema, q: string)
    requires AllSelfContained(schemas) && OnlyTitles(host) && job == JobOf(schemas, host) && Bundle(schemas, host).Ok?
    requires schemas != [] && s == schemas[|schemas| - 1] && s.namespace.None? && s.name !in IGNORED
    requires q in Refs(Body(s.value)) && !Lands(schemas, job, Redirect(s, job, s.name, q))
    ensures !Closed(Bundle(schemas, host).value)
  {
    assert Writes(schemas, job, s.name, s);
    assert q in EntryRefs(s.name, Part(s, s.name));
    BundlingIsClosed(schemas, host, job);
  }

  lemma OneType(a: GeneratedSchema, b: GeneratedSchema, n: string)
    requires a.namespace.Some? && b.namespace.None? && TypeNames(a) == {n}
    ensures NamespacedTypes([a, b]) == map[n := a.namespace.value]
  {
    TypesOfPair(a, b);
  }

  lemma TailUnresolved(a: GeneratedSchema, b: GeneratedSchema, job: Job)
    requires job.types == NamespacedTypes([a, b])
    requires a.namespace == Some("v2") && TypeNames(a) == {"Foo"} && ClaimsOf(a, job.host) == {Claim("v2", "Foo", Object(map[]))}
    requires b.namespace.None? && b.name == "Bar" && LocalDefs(b.value).Keys == {"Foo"}
    ensures !Lands([a, b], job, Redirect(b, job, b.name, TAILED))
  {
    OneType(a, b, "Foo");
    TailRedirected(b, job);
    PairSlot(a, b, job, Claim("v2", "Foo", Object(map[])));
    TailDoesNotLand([a, b], job);
  }

  lemma LostBetween(a: GeneratedSchema, b: GeneratedSchema, host: Host)
    requires AllSelfContained([a, b]) && OnlyTitles(host)
    requires a.namespace == Some("v2") && TypeNames(a) == {"Foo"} && ClaimsOf(a, host) == {Claim("v2", "Foo", Object(map[]))}
    requires b.namespace.None? && b.name == "Bar" && LocalDefs(b.value).Keys == {"Foo"} && TAILED in Refs(Body(b.value))
    ensures Bundle([a, b], host).Ok? && !Closed(Bundle([a, b], host).value)
  {
    PairAccepted(a, b, host);
    TailUnresolved(a, b, JobOf([a, b], host));
    NotClosed([a, b], host, JobOf([a, b], host), b, TAILED);
  }

  /** Two schemas that resolve their own references are accepted, and the bundle does not resolve them: the
      reference is redirected to a schema of the same name that lacks its tail. */
  lemma TailIsLost(schemas: seq<GeneratedSchema>, host: Host)
    requires schemas == [Bare(Some("v2"), "Foo"), WithTail()] && OnlyTitles(host)
    ensures AllSelfContained(schemas) && Bundle(schemas, host).Ok? && !Closed(Bundle(schemas, host).value)
  {
    var a := Bare(Some("v2"), "Foo");
    assert AllSelfContained(schemas) by {
      WithTailResolves();
      assert Refs(a.value) == {};
    }
    BareClaims("v2", "Foo", host);
    assert TypeNames(a) == {"Foo"};
    WithTailRefs();
    LostBetween(a, WithTail(), host);
  }
}
