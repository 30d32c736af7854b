/** Exactly when bundling is closed: when every generated schema resolves its own references, every local
    reference of the finished bundle resolves if and only if those that bundling moves to a schema of
    someone else find their path there. */
module BundleClosed {
  import opened Text
  import opened Json
  import opened References
  import opened SchemaBundle
  import opened BundleExact
  import opened BundleRefs

  ghost predicate Closed(document: Value) {
    forall r :: r in Refs(document) && DEFS <= r ==> Resolve(document, r).Some?
  }

  // ----- where a reference lands -----

  /** The path below `definitions` that a local reference names. */
  function PathOf(r: string): (path: seq<string>)
    requires DEFS <= r
    ensures |path| > 0
  {
    Segments(r[|DEFS|..])
  }

  lemma ResolvePath(document: Value, r: string)
    requires DEFS <= r
    ensures Resolve(document, r) == Lookup(document, ["definitions"] + PathOf(r))
  {
    assert r[2..] == "definitions" + "/" + r[|DEFS|..];
    SegmentsSplit("definitions", r[|DEFS|..]);
  }

  /** The path leads to something, given the last write and the claims of its first name. */
  ghost predicate SlotHas(slot: Slot, path: seq<string>)
    requires |path| > 0
  {
    if |path| == 1 then slot.start.Some? || slot.claims != {}
    else exists v :: Holds(slot, path[0], path[1], v) && Lookup(v, path[2..]).Some?
  }

  /** The reference finds what it names among the last writes and the claims of the schema list. */
  ghost predicate Lands(schemas: seq<GeneratedSchema>, job: Job, r: string) {
    DEFS <= r ==> SlotHas(SlotOf(schemas, job, PathOf(r)[0]), PathOf(r))
  }

  lemma ChildExact(definitions: map<string, Value>, x: string, slot: Slot, n: string, v: Value)
    requires Shows(definitions, x, slot) && x in definitions
    ensures Child(definitions[x], n) == Some(v) <==> Holds(slot, x, n, v)
  {
  }

  lemma LongPathExact(definitions: map<string, Value>, slot: Slot, path: seq<string>)
    requires |path| > 1 && Shows(definitions, path[0], slot)
    ensures path[0] in definitions && Lookup(definitions[path[0]], path[1..]).Some? <==> SlotHas(slot, path)
  {
    var x, n := path[0], path[1];
    assert path[1..][0] == n && path[1..][1..] == path[2..];
    if x in definitions && Child(definitions[x], n).Some? {
      ChildExact(definitions, x, slot, n, Child(definitions[x], n).value);
    }
    forall v | Holds(slot, x, n, v) ensures x in definitions && Child(definitions[x], n) == Some(v) {
      assert x in definitions;
      ChildExact(definitions, x, slot, n, v);
    }
  }

  lemma LandsExact(definitions: map<string, Value>, schemas: seq<GeneratedSchema>, job: Job, r: string)
    requires AllShow(definitions, schemas, job) && DEFS <= r
    ensures Resolve(BundleRoot(definitions), r).Some? <==> Lands(schemas, job, r)
  {
    var path := PathOf(r);
    var x := path[0];
    ResolvePath(BundleRoot(definitions), r);
    assert ["definitions"] + path == ["definitions", x] + path[1..];
    PathUnderDefinitions(definitions, x, path[1..]);
    assert Shows(definitions, x, SlotOf(schemas, job, x));
    if |path| > 1 {
      LongPathExact(definitions, SlotOf(schemas, job, x), path);
    } else {
      assert path[1..] == [];
    }
  }

  // ----- the references of the bundle -----

  ghost predicate RefInSlot(slot: Slot, x: string, r: string) {
    || (slot.start.Some? && r in EntryRefs(x, slot.start.value))
    || exists c :: c in slot.claims && r in EntryRefs(c.name, c.schema)
  }

  lemma ClaimedEntryRefs(fields: map<string, Value>, x: string, slot: Slot, r: string)
    requires slot.claims != {} && (slot.start.Some? ==> slot.start.value.Object?)
    requires forall n, v :: n in fields && fields[n] == v <==> Holds(slot, x, n, v)
    requires forall c :: c in slot.claims ==> c.ns == x
    ensures r in Refs(Object(fields)) <==> RefInSlot(slot, x, r)
  {
    RefsByEntry(fields, r);
    if slot.start.Some? {
      RefsByEntry(slot.start.value.fields, r);
    }
    if r in Refs(Object(fields)) {
      var n :| n in fields && r in EntryRefs(n, fields[n]);
      assert Holds(slot, x, n, fields[n]);
      if Claim(x, n, fields[n]) in slot.claims {
        var c := Claim(x, n, fields[n]);
        assert c in slot.claims && r in EntryRefs(c.name, c.schema);
      } else {
        assert n in slot.start.value.fields && r in EntryRefs(n, slot.start.value.fields[n]);
      }
    }
    if slot.start.Some? && r in Refs(slot.start.value) {
      var n :| n in slot.start.value.fields && r in EntryRefs(n, slot.start.value.fields[n]);
      assert Holds(slot, x, n, slot.start.value.fields[n]);
    }
    forall c | c in slot.claims && r in EntryRefs(c.name, c.schema) ensures r in Refs(Object(fields)) {
      assert c == Claim(x, c.name, c.schema);
      assert Holds(slot, x, c.name, c.schema);
    }
  }

  lemma SlotRefs(definitions: map<string, Value>, x: string, slot: Slot, r: string)
    requires Shows(definitions, x, slot) && forall c :: c in slot.claims ==> c.ns == x
    ensures x in definitions && r in EntryRefs(x, definitions[x]) <==> RefInSlot(slot, x, r)
  {
    if slot.claims != {} {
      ClaimedEntryRefs(definitions[x].fields, x, slot, r);
    }
  }

  lemma BundleRefsExact(definitions: map<string, Value>, schemas: seq<GeneratedSchema>, job: Job, r: string)
    requires AllShow(definitions, schemas, job)
    ensures r in Refs(BundleRoot(definitions)) <==> exists x :: RefInSlot(SlotOf(schemas, job, x), x, r)
  {
    BundleRootRefs(definitions, r);
    RefsByEntry(definitions, r);
    forall x ensures x in definitions && r in EntryRefs(x, definitions[x]) <==> RefInSlot(SlotOf(schemas, job, x), x, r) {
      assert Shows(definitions, x, SlotOf(schemas, job, x));
      SlotRefs(definitions, x, SlotOf(schemas, job, x), r);
    }
  }

  lemma BundleRootRefs(definitions: map<string, Value>, r: string)
    ensures r in Refs(BundleRoot(definitions)) <==> r in Refs(Object(definitions))
  {
    var root := BundleRoot(definitions).fields;
    RefsSplit(root, "definitions");
    var rest := root - {"definitions"};
    assert Refs(Object(rest)) == {};
  }

  ghost predicate ShownRefsLand(schemas: seq<GeneratedSchema>, job: Job) {
    forall x, r :: RefInSlot(SlotOf(schemas, job, x), x, r) ==> Lands(schemas, job, r)
  }

  /** Every local reference resolves exactly when every reference still shown lands. */
  lemma ClosedMeans(definitions: map<string, Value>, schemas: seq<GeneratedSchema>, job: Job)
    requires AllShow(definitions, schemas, job)
    ensures Closed(BundleRoot(definitions)) <==> ShownRefsLand(schemas, job)
  {
    var bundle := BundleRoot(definitions);
    if Closed(bundle) {
      forall x, r | RefInSlot(SlotOf(schemas, job, x), x, r) ensures Lands(schemas, job, r) {
        BundleRefsExact(definitions, schemas, job, r);
        if DEFS <= r {
          LandsExact(definitions, schemas, job, r);
        }
      }
    }
    if ShownRefsLand(schemas, job) {
      forall r | r in Refs(bundle) && DEFS <= r ensures Resolve(bundle, r).Some? {
        BundleRefsExact(definitions, schemas, job, r);
        LandsExact(definitions, schemas, job, r);
      }
    }
  }

  // ----- the references that need a look -----

  /** A reference a namespaced schema makes to itself that is not simply moved along with its target: it
      starts with the namespace's own name, the namespace's name has a slash in it, or the definition
      it names is one the exporter skips. */
  predicate Loose(ns: string, q: string) {
    DEFS <= q && (ns + "/" <= q[|DEFS|..] || !Slashless(ns) || PathOf(q)[0] in IGNORED + SPECIAL)
  }

  /** The schema at `i` claims into `ns`, and no later root schema has written over it. */
  predicate Standing(schemas: seq<GeneratedSchema>, job: Job, i: nat, ns: string) {
    i < |schemas| && Claims(schemas[i]) && schemas[i].namespace == Some(ns) && LastWrite(schemas, job, ns) < i
  }

  ghost predicate LooseRefsLand(schemas: seq<GeneratedSchema>, job: Job) {
    forall i: nat, ns, q :: Standing(schemas, job, i, ns) && KeptRef(schemas[i].value, q) && Loose(ns, q) ==>
      Lands(schemas, job, ToNamespace(q, ns))
  }

  /** The schema `s` was the last to write `x`. */
  ghost predicate Writes(schemas: seq<GeneratedSchema>, job: Job, x: string, s: GeneratedSchema) {
    LastWrite(schemas, job, x) >= 0 && s == schemas[LastWrite(schemas, job, x)]
  }

  ghost predicate RootRefsLand(schemas: seq<GeneratedSchema>, job: Job) {
    forall x, s, q :: Writes(schemas, job, x, s) && q in EntryRefs(x, Part(s, x)) ==>
      Lands(schemas, job, Redirect(s, job, x, q))
  }

  lemma MovedPath(ns: string, q: string, r: string)
    requires DEFS <= q && Slashless(ns) && r == DEFS + ns + "/" + q[|DEFS|..]
    ensures DEFS <= r && PathOf(r) == [ns] + PathOf(q)
  {
    assert r[|DEFS|..] == ns + "/" + q[|DEFS|..];
    SegmentsSplit(ns, q[|DEFS|..]);
  }

  lemma HeldPath(slot: Slot, x: string, path: seq<string>, v: Value, all: seq<string>)
    requires |path| > 0 && Holds(slot, x, path[0], v) && Lookup(v, path[1..]).Some? && all == [x] + path
    ensures SlotHas(slot, all)
  {
    assert all[0] == x && all[1] == path[0] && all[2..] == path[1..];
  }

  /** A reference of a namespaced schema that is simply moved into the namespace always lands: the schema
      that makes it also claims what it names. */
  lemma MovedRefLands(schemas: seq<GeneratedSchema>, job: Job, i: nat, ns: string, q: string)
    requires Standing(schemas, job, i, ns) && SelfContained(schemas[i]) && OnlyTitles(job.host)
    requires KeptRef(schemas[i].value, q) && !Loose(ns, q)
    ensures Lands(schemas, job, ToNamespace(q, ns))
  {
    if DEFS <= q {
      RefsOfSchema(schemas[i].value, q);
      ResolvePath(schemas[i].value, q);
      var c := ClaimedPath(schemas[i], ns, job.host, PathOf(q));
      ClaimStands(schemas, job.host, job, i, c, LastWrite(schemas, job, ns));
      MovedPath(ns, q, ToNamespace(q, ns));
      HeldPath(SlotOf(schemas, job, ns), ns, PathOf(q), c.schema, PathOf(ToNamespace(q, ns)));
    }
  }

  // ----- the theorem -----

  ghost predicate AllSelfContained(schemas: seq<GeneratedSchema>) {
    forall i :: 0 <= i < |schemas| ==> SelfContained(schemas[i])
  }

  lemma WrittenRefLands(schemas: seq<GeneratedSchema>, job: Job, x: string, s: GeneratedSchema, r: string)
    requires AllSelfContained(schemas) && OnlyTitles(job.host) && RootRefsLand(schemas, job)
    requires Writes(schemas, job, x, s) && r in EntryRefs(x, RootWrites(s, job)[x])
    ensures Lands(schemas, job, r)
  {
    RootRefs(s, job, x, r);
    var q :| q in EntryRefs(x, Part(s, x)) && Redirect(s, job, x, q) == r;
  }

  lemma ClaimedRefLands(schemas: seq<GeneratedSchema>, job: Job, ns: string, c: Claim, r: string)
    requires AllSelfContained(schemas) && OnlyTitles(job.host) && LooseRefsLand(schemas, job)
    requires c in SlotOf(schemas, job, ns).claims && r in EntryRefs(c.name, c.schema)
    ensures Lands(schemas, job, r)
  {
    var i :| 0 <= i < |schemas| && LastWrite(schemas, job, ns) < i && c in Asked(schemas, job.host)[i] && c.ns == ns;
    ClaimsNameTheirNamespace(schemas[i], job.host);
    var q := ClaimRefOrigin(schemas[i], ns, job.host, c, r);
    assert Standing(schemas, job, i, ns);
    if !Loose(ns, q) {
      MovedRefLands(schemas, job, i, ns, q);
    }
  }

  lemma LandingMeansShownLand(schemas: seq<GeneratedSchema>, job: Job)
    requires AllSelfContained(schemas) && OnlyTitles(job.host)
    requires LooseRefsLand(schemas, job) && RootRefsLand(schemas, job)
    ensures ShownRefsLand(schemas, job)
  {
    forall x, r | RefInSlot(SlotOf(schemas, job, x), x, r) ensures Lands(schemas, job, r) {
      var slot := SlotOf(schemas, job, x);
      if slot.start.Some? && r in EntryRefs(x, slot.start.value) {
        WrittenRefLands(schemas, job, x, schemas[LastWrite(schemas, job, x)], r);
      } else {
        var c :| c in slot.claims && r in EntryRefs(c.name, c.schema);
        ClaimedRefLands(schemas, job, x, c, r);
      }
    }
  }

  lemma LooseRefShown(schemas: seq<GeneratedSchema>, job: Job, i: nat, ns: string, q: string)
    requires AllSelfContained(schemas) && OnlyTitles(job.host) && Standing(schemas, job, i, ns) && KeptRef(schemas[i].value, q)
    ensures RefInSlot(SlotOf(schemas, job, ns), ns, ToNamespace(q, ns))
  {
    var c := ClaimRefShown(schemas[i], ns, job.host, q);
    ClaimsNameTheirNamespace(schemas[i], job.host);
    ClaimStands(schemas, job.host, job, i, c, LastWrite(schemas, job, ns));
  }

  lemma RootRefShown(schemas: seq<GeneratedSchema>, job: Job, x: string, s: GeneratedSchema, q: string)
    requires AllSelfContained(schemas) && OnlyTitles(job.host) && Writes(schemas, job, x, s) && q in EntryRefs(x, Part(s, x))
    ensures RefInSlot(SlotOf(schemas, job, x), x, Redirect(s, job, x, q))
  {
    RootRefs(s, job, x, Redirect(s, job, x, q));
  }

  lemma ShownMeansLanding(schemas: seq<GeneratedSchema>, job: Job)
    requires AllSelfContained(schemas) && OnlyTitles(job.host) && ShownRefsLand(schemas, job)
    ensures LooseRefsLand(schemas, job) && RootRefsLand(schemas, job)
  {
    forall i: nat, ns, q | Standing(schemas, job, i, ns) && KeptRef(schemas[i].value, q) && Loose(ns, q)
      ensures Lands(schemas, job, ToNamespace(q, ns))
    {
      LooseRefShown(schemas, job, i, ns, q);
    }
    forall x, s, q | Writes(schemas, job, x, s) && q in EntryRefs(x, Part(s, x))
      ensures Lands(schemas, job, Redirect(s, job, x, q))
    {
      RootRefShown(schemas, job, x, s, q);
    }
  }

  /** Given inputs that resolve their own references, along paths of any length, the bundle resolves
      every local reference exactly when two kinds of reference land: those of root schemas, as
      redirected, and the loose ones of namespaced schemas. All others always do. */
  lemma BundlingIsClosed(schemas: seq<GeneratedSchema>, host: Host, job: Job)
    requires AllSelfContained(schemas) && OnlyTitles(host)
    requires job == JobOf(schemas, host) && Bundle(schemas, host).Ok?
    ensures Closed(Bundle(schemas, host).value) <==> LooseRefsLand(schemas, job) && RootRefsLand(schemas, job)
  {
    BundlingExact(schemas, host, job);
    var definitions :| Bundle(schemas, host) == Ok(BundleRoot(definitions)) && AllShow(definitions, schemas, job);
    ClosedMeans(definitions, schemas, job);
    if LooseRefsLand(schemas, job) && RootRefsLand(schemas, job) {
      LandingMeansShownLand(schemas, job);
    }
    if ShownRefsLand(schemas, job) {
      ShownMeansLanding(schemas, job);
    }
  }
}
