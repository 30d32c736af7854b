/** The finished bundle read back, name by name, against the generated schemas as they are
    (codex-rs/app-server-protocol/src/export.rs:993-1074). */
module BundleReading {
  import opened Text
  import opened Json
  import opened References
  import opened SchemaBundle
  import opened BundleExact
  import opened BundleRefs
  import opened BundleClosed
  import opened NamespaceTypes

  /** The schema name that is passed over. */
  const PASSED_OVER := "Option<()>"

  /** The definitions that are passed over. */
  const NOT_COPIED := {"Option<()>", "ClientNotification", "ClientRequest", "ServerNotification", "ServerRequest"}

  /** A schema without its `definitions`. */
  function Undefined(v: Value): Value {
    if v.Object? then Object(v.fields - {"definitions"}) else v
  }

  lemma SkippedNames(n: string)
    ensures n in IGNORED <==> n == PASSED_OVER
    ensures n in IGNORED + SPECIAL <==> n in NOT_COPIED
  {
  }

  // ----- what a schema asks for and writes -----

  lemma MappedDefinitionIs(v: Value, f: string -> string, n: string)
    ensures n in LocalDefs(MapRefs(v, f)) <==> HasKey(v, "definitions", n)
    ensures HasKey(v, "definitions", n) && n != REF_KEY ==> LocalDefs(MapRefs(v, f))[n] == MapRefs(v.fields["definitions"].fields[n], f)
  {
  }

  lemma MappedUndefined(v: Value, f: string -> string)
    ensures Body(MapRefs(v, f)) == MapRefs(Undefined(v), f)
  {
    if v.Object? {
      assert Body(MapRefs(v, f)).fields == MapRefs(Undefined(v), f).fields;
    }
  }

  /** How a definition looks in its namespace. */
  function Moved(n: string, v: Value, ns: string, host: Host): Value {
    var f := (r: string) => ToNamespace(r, ns);
    MapRefs(host.annotate(n, MapRefs(v, f)), f)
  }

  lemma SameMove(ns: string, v: Value)
    ensures MapRefs(v, InNamespace(ns)) == MapRefs(v, (r: string) => ToNamespace(r, ns))
  {
    MapRefsAgree(v, InNamespace(ns), (r: string) => ToNamespace(r, ns));
  }

  lemma ContributionMoved(s: GeneratedSchema, ns: string, host: Host, n: string)
    requires HasKey(s.value, "definitions", n) && n !in NOT_COPIED && n != REF_KEY
    ensures var added := Contributions(LocalDefs(MapRefs(s.value, InNamespace(ns))), ns, host);
      n in added && added[n] == Moved(n, s.value.fields["definitions"].fields[n], ns, host)
  {
    var def := s.value.fields["definitions"].fields[n];
    SkippedNames(n);
    MappedDefinitionIs(s.value, InNamespace(ns), n);
    SameMove(ns, def);
    SameMove(ns, host.annotate(n, MapRefs(def, InNamespace(ns))));
  }

  /** A namespaced schema asks for its own name and for each of its definitions that is copied, and for
      nothing else. */
  lemma ClaimsRead(s: GeneratedSchema, ns: string, host: Host, n: string)
    requires s.namespace == Some(ns) && n != REF_KEY
    ensures (exists v :: Claim(ns, n, v) in ClaimsOf(s, host)) <==>
      s.name != PASSED_OVER && (n == s.name || (HasKey(s.value, "definitions", n) && n !in NOT_COPIED))
    ensures s.name != PASSED_OVER ==>
      Claim(ns, s.name, MapRefs(Undefined(s.value), (r: string) => ToNamespace(r, ns))) in ClaimsOf(s, host)
    ensures s.name != PASSED_OVER && HasKey(s.value, "definitions", n) && n !in NOT_COPIED ==>
      Claim(ns, n, Moved(n, s.value.fields["definitions"].fields[n], ns, host)) in ClaimsOf(s, host)
  {
    SkippedNames(s.name);
    SkippedNames(n);
    var f := InNamespace(ns);
    var v := MapRefs(s.value, f);
    var added := Contributions(LocalDefs(v), ns, host);
    MappedDefinitionIs(s.value, f, n);
    MappedUndefined(s.value, f);
    SameMove(ns, Undefined(s.value));
    OneClaim(ns, s.name, Body(v), map[s.name := Body(v)]);
    if n in added {
      assert Claim(ns, n, added[n]) in ClaimsFor(ns, added);
      ContributionMoved(s, ns, host, n);
    }
  }

  /** A root schema writes its own name and each of its definitions that is copied and lives in no namespace,
      or all of them when it is a v1 schema. */
  lemma WritesRead(schemas: seq<GeneratedSchema>, s: GeneratedSchema, job: Job, n: string)
    requires job.types == NamespacedTypes(schemas)
    ensures n in RootWrites(s, job) <==>
      && s.namespace.None? && s.name != PASSED_OVER
      && (n == s.name || (HasKey(s.value, "definitions", n) && n !in NOT_COPIED && (s.inV1 || !exists ns :: LivesIn(schemas, n, ns))))
  {
    SkippedNames(s.name);
    SkippedNames(n);
    MappedDefinitionIs(s.value, Known(job.types), n);
    if NamespaceFor(n, job.types).Some? {
      NamespaceForExact(schemas, n, NamespaceFor(n, job.types).value);
    }
    forall ns | LivesIn(schemas, n, ns) ensures NamespaceFor(n, job.types).Some? {
      NamespaceForExact(schemas, n, ns);
    }
  }

  // ----- the head of the bundle -----

  lemma BundleHead(schemas: seq<GeneratedSchema>, host: Host)
    requires Bundle(schemas, host).Ok?
    ensures var bundle := Bundle(schemas, host).value;
      && bundle.Object? && bundle.fields.Keys == {"$schema", "title", "type", "definitions"}
      && bundle.fields["$schema"] == Str("http://json-schema.org/draft-07/schema#")
      && bundle.fields["title"] == Str("CodexAppServerProtocol") && bundle.fields["type"] == Str("object")
      && bundle.fields["definitions"].Object?
  {
  }

  // ----- namespaces -----

  /** No schema behind `i` without a namespace is named `x` or defines it. */
  ghost predicate NoRootNameBehind(schemas: seq<GeneratedSchema>, i: nat, x: string) {
    forall j :: i < j < |schemas| && schemas[j].namespace.None? ==>
      schemas[j].name != x && !HasKey(schemas[j].value, "definitions", x)
  }

  lemma WriterNamesIt(s: GeneratedSchema, job: Job, x: string)
    requires x in RootWrites(s, job)
    ensures s.namespace.None? && (s.name == x || HasKey(s.value, "definitions", x))
  {
    MappedDefinitionIs(s.value, Known(job.types), x);
  }

  lemma NotWrittenBehind(schemas: seq<GeneratedSchema>, job: Job, i: nat, x: string)
    requires i < |schemas| && schemas[i].namespace.Some? && NoRootNameBehind(schemas, i, x)
    ensures LastWrite(schemas, job, x) < i
  {
    var w := LastWrite(schemas, job, x);
    if w >= 0 {
      WriterNamesIt(schemas[w], job, x);
    }
  }

  /** What a namespaced schema brought is in the bundle: its body under its name, its definitions under theirs,
      with their references moved into the namespace. */
  lemma NamespacedContents(schemas: seq<GeneratedSchema>, host: Host, i: nat, ns: string, n: string)
    requires Bundle(schemas, host).Ok? && i < |schemas| && schemas[i].namespace == Some(ns) && schemas[i].name != PASSED_OVER
    requires NoRootNameBehind(schemas, i, ns) && n != REF_KEY
    ensures Lookup(Bundle(schemas, host).value, ["definitions", ns, schemas[i].name]) ==
      Some(MapRefs(Undefined(schemas[i].value), (r: string) => ToNamespace(r, ns)))
    ensures HasKey(schemas[i].value, "definitions", n) && n !in NOT_COPIED ==>
      Lookup(Bundle(schemas, host).value, ["definitions", ns, n]) ==
        Some(Moved(n, schemas[i].value.fields["definitions"].fields[n], ns, host))
  {
    var job, s := JobOf(schemas, host), schemas[i];
    NotWrittenBehind(schemas, job, i, ns);
    ClaimsRead(s, ns, host, n);
    ClaimSurvives(schemas, host, job, i, Claim(ns, s.name, MapRefs(Undefined(s.value), (r: string) => ToNamespace(r, ns))));
    if HasKey(s.value, "definitions", n) && n !in NOT_COPIED {
      ClaimSurvives(schemas, host, job, i, Claim(ns, n, Moved(n, s.value.fields["definitions"].fields[n], ns, host)));
    }
  }

  /** And nothing else is: without root schemas of the namespace's name, each name in the namespace was brought
      by a schema of it. */
  lemma NamespacedNames(schemas: seq<GeneratedSchema>, host: Host, ns: string, n: string)
    requires Bundle(schemas, host).Ok? && NoRootName(schemas, ns) && n != REF_KEY
    ensures Lookup(Bundle(schemas, host).value, ["definitions", ns, n]).Some? <==>
      exists i :: 0 <= i < |schemas| && schemas[i].namespace == Some(ns) && schemas[i].name != PASSED_OVER
        && (n == schemas[i].name || (HasKey(schemas[i].value, "definitions", n) && n !in NOT_COPIED))
  {
    var found := Lookup(Bundle(schemas, host).value, ["definitions", ns, n]);
    if found.Some? {
      ApartNamesHoldTheirClaims(schemas, host, ns, n, found.value);
      var i :| 0 <= i < |schemas| && Claim(ns, n, found.value) in Asked(schemas, host)[i];
      ClaimsNameTheirNamespace(schemas[i], host);
      ClaimsRead(schemas[i], ns, host, n);
    }
    forall i | 0 <= i < |schemas| && schemas[i].namespace == Some(ns) && schemas[i].name != PASSED_OVER
        && (n == schemas[i].name || (HasKey(schemas[i].value, "definitions", n) && n !in NOT_COPIED))
      ensures found.Some?
    {
      ClaimsRead(schemas[i], ns, host, n);
      var v :| Claim(ns, n, v) in ClaimsOf(schemas[i], host);
      assert Claim(ns, n, v) in Asked(schemas, host)[i];
      ApartNamesHoldTheirClaims(schemas, host, ns, n, v);
    }
  }

  // ----- the root -----

  /** A name is at the root exactly when a root schema writes it or it is a namespace. */
  lemma RootNames(schemas: seq<GeneratedSchema>, host: Host, n: string)
    requires Bundle(schemas, host).Ok?
    ensures Lookup(Bundle(schemas, host).value, ["definitions", n]).Some? <==>
      exists i :: 0 <= i < |schemas| && schemas[i].name != PASSED_OVER && AtRoot(schemas, schemas[i], n)
  {
    var job := JobOf(schemas, host);
    BundlingExact(schemas, host, job);
    var definitions :| Bundle(schemas, host) == Ok(BundleRoot(definitions)) && AllShow(definitions, schemas, job);
    PathUnderDefinitions(definitions, n, []);
    assert ["definitions", n] + [] == ["definitions", n];
    assert Shows(definitions, n, SlotOf(schemas, job, n));
    if n in definitions {
      SlotFilled(schemas, job, n);
    }
    forall i | 0 <= i < |schemas| && schemas[i].name != PASSED_OVER && AtRoot(schemas, schemas[i], n) ensures n in definitions {
      FillsSlot(schemas, job, i, n);
    }
  }

  /** The schema puts something under the name at the root: it belongs to the namespace of that name, or it
      is a root schema that is named so, or that defines it while the name lives in no namespace. */
  ghost predicate AtRoot(schemas: seq<GeneratedSchema>, s: GeneratedSchema, n: string) {
    || s.namespace == Some(n)
    || (s.namespace.None? && (n == s.name || (HasKey(s.value, "definitions", n) && n !in NOT_COPIED
                                             && (s.inV1 || !exists ns :: LivesIn(schemas, n, ns)))))
  }

  lemma SlotFilled(schemas: seq<GeneratedSchema>, job: Job, n: string)
    requires job.types == NamespacedTypes(schemas) && (SlotOf(schemas, job, n).start.Some? || SlotOf(schemas, job, n).claims != {})
    ensures exists i :: 0 <= i < |schemas| && schemas[i].name != PASSED_OVER && AtRoot(schemas, schemas[i], n)
  {
    var slot, w := SlotOf(schemas, job, n), LastWrite(schemas, job, n);
    if w >= 0 {
      WritesRead(schemas, schemas[w], job, n);
      assert AtRoot(schemas, schemas[w], n);
    } else {
      var c :| c in slot.claims;
      var i :| 0 <= i < |schemas| && c in Asked(schemas, job.host)[i] && c.ns == n;
      ClaimsNameTheirNamespace(schemas[i], job.host);
      SkippedNames(schemas[i].name);
      assert AtRoot(schemas, schemas[i], n);
    }
  }

  lemma FillsSlot(schemas: seq<GeneratedSchema>, job: Job, i: nat, n: string)
    requires job.types == NamespacedTypes(schemas) && i < |schemas| && schemas[i].name != PASSED_OVER && AtRoot(schemas, schemas[i], n)
    ensures SlotOf(schemas, job, n).start.Some? || SlotOf(schemas, job, n).claims != {}
  {
    var s, w := schemas[i], LastWrite(schemas, job, n);
    if s.namespace == Some(n) {
      if w < i {
        SkippedNames(s.name);
        var f := InNamespace(n);
        var c := Claim(n, s.name, Body(MapRefs(s.value, f)));
        OneClaim(n, s.name, c.schema, map[s.name := c.schema]);
        ClaimStands(schemas, job.host, job, i, c, w);
      }
    } else {
      WritesRead(schemas, s, job, n);
    }
  }

  function Redirected(s: GeneratedSchema, job: Job): string -> string {
    r => Redirect(s, job, s.name, r)
  }

  lemma {:induction false} ForcedTree(v: Value, forced: seq<(string, string)>, h: string -> string)
    requires forall r :: h(r) == ForceRef(r, forced)
    ensures ForceRefs(v, forced) == MapRefs(v, h)
  {
    if forced == [] {
      MapRefsFixed(v, h);
    } else {
      var k := |forced| - 1;
      var front := (r: string) => ForceRef(r, forced[..k]);
      ForcedTree(v, forced[..k], front);
      MapRefsTwice(v, front, Named(forced[k].1, forced[k].0), h);
    }
  }

  lemma OwnWriteReads(s: GeneratedSchema, job: Job)
    requires s.namespace.None? && s.name != PASSED_OVER
    ensures s.name in RootWrites(s, job) && RootWrites(s, job)[s.name] == MapRefs(Undefined(s.value), Redirected(s, job))
  {
    SkippedNames(s.name);
    var v, forced := MapRefs(s.value, Known(job.types)), ForcedOf(s, job);
    RootWriteIs(s, job, s.name, v);
    MappedUndefined(s.value, Known(job.types));
    var h := (r: string) => ForceRef(r, forced);
    ForcedTree(MapRefs(Undefined(s.value), Known(job.types)), forced, h);
    MapRefsTwice(Undefined(s.value), Known(job.types), h, Redirected(s, job));
  }

  lemma DefinitionWriteReads(s: GeneratedSchema, job: Job, n: string)
    requires n in RootWrites(s, job) && n != s.name && n != REF_KEY
    ensures HasKey(s.value, "definitions", n)
    ensures RootWrites(s, job)[n] == job.host.annotate(n, MapRefs(s.value.fields["definitions"].fields[n], Known(job.types)))
  {
    WriterNamesIt(s, job, n);
    RootWriteIs(s, job, n, MapRefs(s.value, Known(job.types)));
    MappedDefinitionIs(s.value, Known(job.types), n);
  }

  /** What a name at the root holds that is no namespace: the body of the last root schema of that name, or
      the definition the last root schema to define it has, with redirected references. */
  lemma RootContents(schemas: seq<GeneratedSchema>, host: Host, job: Job, i: nat, n: string)
    requires Bundle(schemas, host).Ok? && job == JobOf(schemas, host) && i < |schemas| && LastWrite(schemas, job, n) == i && n != REF_KEY
    requires forall j :: 0 <= j < |schemas| ==> schemas[j].namespace != Some(n)
    ensures n == schemas[i].name ==>
      Lookup(Bundle(schemas, host).value, ["definitions", n]) == Some(MapRefs(Undefined(schemas[i].value), Redirected(schemas[i], job)))
    ensures n != schemas[i].name ==> HasKey(schemas[i].value, "definitions", n)
    ensures n != schemas[i].name ==>
      Lookup(Bundle(schemas, host).value, ["definitions", n]) ==
        Some(host.annotate(n, MapRefs(schemas[i].value.fields["definitions"].fields[n], Known(job.types))))
  {
    var s := schemas[i];
    BundlingExact(schemas, host, job);
    var definitions :| Bundle(schemas, host) == Ok(BundleRoot(definitions)) && AllShow(definitions, schemas, job);
    PathUnderDefinitions(definitions, n, []);
    assert ["definitions", n] + [] == ["definitions", n];
    assert Shows(definitions, n, SlotOf(schemas, job, n));
    Unclaimed(schemas, job, n);
    if n == s.name {
      WriterIsRead(s, job, n);
      OwnWriteReads(s, job);
    } else {
      DefinitionWriteReads(s, job, n);
    }
  }

  lemma WriterIsRead(s: GeneratedSchema, job: Job, n: string)
    requires n in RootWrites(s, job)
    ensures s.namespace.None? && s.name != PASSED_OVER
  {
    SkippedNames(s.name);
  }

  lemma Unclaimed(schemas: seq<GeneratedSchema>, job: Job, n: string)
    requires forall j :: 0 <= j < |schemas| ==> schemas[j].namespace != Some(n)
    ensures SlotOf(schemas, job, n).claims == {}
  {
    forall c | c in SlotOf(schemas, job, n).claims ensures false {
      var j :| 0 <= j < |schemas| && c in Asked(schemas, job.host)[j] && c.ns == n;
      ClaimsNameTheirNamespace(schemas[j], job.host);
    }
  }

  // ----- references of root schemas -----

  /** The reference names `n`, perhaps with a path behind it. */
  predicate Names(q: string, n: string) {
    q == DEFS + n || DEFS + n + "/" <= q
  }

  lemma NamesPath(q: string, n: string)
    requires Slashless(n) && Names(q, n)
    ensures DEFS <= q && PathOf(q)[0] == n
  {
    var rest := q[|DEFS|..];
    if q == DEFS + n {
      assert rest == n;
      SegmentsSingle(n);
    } else {
      var tail := q[|DEFS + n + "/"|..];
      assert rest == n + "/" + tail;
      SegmentsSplit(n, tail);
    }
  }

  /** How a reference of a root schema is spelled before the definitions of the schema are forced. */
  ghost predicate KnownAs(schemas: seq<GeneratedSchema>, q: string, r: string) {
    if !(DEFS <= q) then r == q
    else if exists ns :: LivesIn(schemas, PathOf(q)[0], ns)
    then exists ns :: LivesIn(schemas, PathOf(q)[0], ns) && r == DEFS + ns + "/" + q[|DEFS|..]
    else r == q
  }

  lemma KnownReads(schemas: seq<GeneratedSchema>, q: string)
    ensures KnownAs(schemas, q, ToKnownNamespace(q, NamespacedTypes(schemas)))
  {
    var types := NamespacedTypes(schemas);
    if DEFS <= q {
      var n := PathOf(q)[0];
      if NamespaceFor(n, types).Some? {
        NamespaceForExact(schemas, n, NamespaceFor(n, types).value);
      }
      forall ns | LivesIn(schemas, n, ns) ensures NamespaceFor(n, types) == Some(ns) {
        NamespaceForExact(schemas, n, ns);
      }
    }
  }

  /** A definition of a root schema whose references are forced into a namespace. */
  ghost predicate ForcedInto(schemas: seq<GeneratedSchema>, s: GeneratedSchema, m: string, ns: string) {
    !s.inV1 && HasKey(s.value, "definitions", m) && m !in NOT_COPIED && LivesIn(schemas, m, ns)
  }

  lemma {:induction false} ForcedAre(names: seq<string>, defs: map<string, Value>, inV1: bool, types: map<string, string>, p: (string, string))
    ensures p in ForcedRefs(names, defs, inV1, types) <==>
      p.0 in names && p.0 in KeptNames(defs) && RootTarget(p.0, inV1, types) == Some(p.1)
  {
    if names != [] {
      ForcedAre(names[..|names| - 1], defs, inV1, types, p);
      assert names == names[..|names| - 1] + [names[|names| - 1]];
    }
  }

  lemma ForcedRead(schemas: seq<GeneratedSchema>, s: GeneratedSchema, job: Job, m: string, ns: string)
    requires job.types == NamespacedTypes(schemas) && Sound(job.host)
    ensures (m, ns) in ForcedOf(s, job) <==> ForcedInto(schemas, s, m, ns)
  {
    var defs := LocalDefs(s.value);
    assert Enumerates(job.host.order(defs.Keys), defs.Keys);
    ForcedAre(job.host.order(defs.Keys), defs, s.inV1, job.types, (m, ns));
    NamespaceForExact(schemas, m, ns);
    SkippedNames(m);
  }

  lemma NamedReads(r: string, ns: string, m: string)
    ensures NamedToNamespace(r, ns, m) == if Names(r, m) then DEFS + ns + "/" + r[|DEFS|..] else r
  {
    if r == DEFS + m {
      assert r[|DEFS|..] == m;
    } else if DEFS + m + "/" <= r {
      assert r[|DEFS|..] == m + "/" + r[|DEFS + m + "/"|..];
    }
  }

  /** A reference that one forced definition names is moved into its namespace, and stays there unless another
      forced definition names it again. */
  lemma {:induction false} ForcedOnce(r: string, forced: seq<(string, string)>, m: string, ns: string, r': string)
    requires Names(r, m) && r' == DEFS + ns + "/" + r[|DEFS|..] && (m, ns) in forced
    requires forall p :: p in forced ==> (Names(r, p.0) ==> p == (m, ns)) && !Names(r', p.0)
    ensures ForceRef(r, forced) == r'
  {
    var k := |forced| - 1;
    var front, last := forced[..k], forced[k];
    assert forced == front + [last];
    NamedReads(r, last.1, last.0);
    NamedReads(r', last.1, last.0);
    if (m, ns) in front {
      ForcedOnce(r, front, m, ns, r');
    } else {
      forall p | p in front ensures NamedToNamespace(r, p.1, p.0) == r {
        NamedReads(r, p.1, p.0);
      }
      ForceIdle(r, front);
    }
  }

  lemma {:induction false} ForcedNever(r: string, forced: seq<(string, string)>)
    requires forall p :: p in forced ==> !Names(r, p.0)
    ensures ForceRef(r, forced) == r
  {
    forall p | p in forced ensures NamedToNamespace(r, p.1, p.0) == r {
      NamedReads(r, p.1, p.0);
    }
    ForceIdle(r, forced);
  }

  /** No forced definition names the reference. */
  ghost predicate Unforced(schemas: seq<GeneratedSchema>, s: GeneratedSchema, r: string) {
    forall m, ns :: ForcedInto(schemas, s, m, ns) ==> !Names(r, m)
  }

  /** Exactly one forced definition names the reference, and none names the result. */
  ghost predicate ForcedBy(schemas: seq<GeneratedSchema>, s: GeneratedSchema, r: string, r': string, m: string, ns: string) {
    && ForcedInto(schemas, s, m, ns) && Names(r, m) && r' == DEFS + ns + "/" + r[|DEFS|..]
    && Unforced(schemas, s, r') && forall m', ns' :: ForcedInto(schemas, s, m', ns') && Names(r, m') ==> m' == m
  }

  /** The spelling of a reference in the body of a root schema: first into the namespace its first name lives in,
      then into that of the one definition of the schema that names the result, if there is one. */
  lemma BodyReferenceReads(schemas: seq<GeneratedSchema>, s: GeneratedSchema, job: Job, q: string, r: string, r': string)
    requires job.types == NamespacedTypes(schemas) && Sound(job.host) && r == ToKnownNamespace(q, job.types)
    requires (r' == r && Unforced(schemas, s, r)) || exists m, ns :: ForcedBy(schemas, s, r, r', m, ns)
    ensures KnownAs(schemas, q, r) && Redirect(s, job, s.name, q) == r'
  {
    KnownReads(schemas, q);
    forall p | p in ForcedOf(s, job) ensures ForcedInto(schemas, s, p.0, p.1) {
      ForcedRead(schemas, s, job, p.0, p.1);
    }
    if exists m, ns :: ForcedBy(schemas, s, r, r', m, ns) {
      var m, ns :| ForcedBy(schemas, s, r, r', m, ns);
      ForcedRead(schemas, s, job, m, ns);
      forall p | p in ForcedOf(s, job) && p.0 == m ensures p == (m, ns) {
        NamespaceForExact(schemas, m, p.1);
        NamespaceForExact(schemas, m, ns);
      }
      ForcedOnce(r, ForcedOf(s, job), m, ns, r');
    } else {
      ForcedNever(r, ForcedOf(s, job));
    }
  }

  /** A reference of a root schema to a name that lives in a namespace reads `#/definitions/<namespace>/<name>`
      in the bundle, whether it is in the schema's body or in a definition it writes. */
  lemma RootReferenceReads(schemas: seq<GeneratedSchema>, host: Host, i: nat, x: string, q: string, n: string, ns: string)
    requires Bundle(schemas, host).Ok? && OnlyTitles(host) && i < |schemas| && schemas[i].namespace.None? && IsSchema(schemas[i].value)
    requires LastWrite(schemas, JobOf(schemas, host), x) == i && q in EntryRefs(x, Part(schemas[i], x))
    requires Slashless(n) && Names(q, n) && LivesIn(schemas, n, ns)
    requires Slashless(ns) && forall m :: HasKey(schemas[i].value, "definitions", m) ==> Slashless(m) && m != ns
    ensures Lookup(Bundle(schemas, host).value, ["definitions", x]).Some?
    ensures DEFS + ns + "/" + q[|DEFS|..] in EntryRefs(x, Lookup(Bundle(schemas, host).value, ["definitions", x]).value)
  {
    var job, s := JobOf(schemas, host), schemas[i];
    var r := DEFS + ns + "/" + q[|DEFS|..];
    NamesPath(q, n);
    NamespaceForExact(schemas, n, ns);
    assert ToKnownNamespace(q, job.types) == r;
    ForceKeeps(s, job, r, ns, q[|DEFS|..]);
    RootRefs(s, job, x, r);
    BundlingExact(schemas, host, job);
    var definitions :| Bundle(schemas, host) == Ok(BundleRoot(definitions)) && AllShow(definitions, schemas, job);
    PathUnderDefinitions(definitions, x, []);
    assert ["definitions", x] + [] == ["definitions", x];
    SlotNamesItself(schemas, job, x);
    assert Shows(definitions, x, SlotOf(schemas, job, x));
    SlotRefs(definitions, x, SlotOf(schemas, job, x), r);
  }

  lemma SlotNamesItself(schemas: seq<GeneratedSchema>, job: Job, x: string)
    ensures forall c :: c in SlotOf(schemas, job, x).claims ==> c.ns == x
  {
  }

  lemma ForceKeeps(s: GeneratedSchema, job: Job, r: string, ns: string, rest: string)
    requires r == DEFS + ns + "/" + rest && Slashless(ns)
    requires forall m :: HasKey(s.value, "definitions", m) ==> Slashless(m) && m != ns
    ensures ForceRef(r, ForcedOf(s, job)) == r
  {
    ForcedPairs(job.host.order(LocalDefs(s.value).Keys), LocalDefs(s.value), s.inV1, job.types);
    forall p | p in ForcedOf(s, job) ensures NamedToNamespace(r, p.1, p.0) == r {
      assert HasKey(s.value, "definitions", p.0);
      NamedKeepsNamespaced(p.1, p.0, ns, rest);
    }
    ForceIdle(r, ForcedOf(s, job));
  }
}
