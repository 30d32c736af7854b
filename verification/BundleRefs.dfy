/** Which references of a generated schema end up in the bundle, and how they are spelled there. */
module BundleRefs {
  import opened Text
  import opened Json
  import opened References
  import opened SchemaBundle
  import opened BundleExact

  // ----- the inputs -----

  /** A schema is a boolean or an object, and its definitions are a map (sections 4.3 and 9 of JSON Schema
      draft-07 core and validation). */
  predicate IsSchema(v: Value) {
    v.Bool? || (v.Object? && ("definitions" in v.fields ==> v.fields["definitions"].Object?))
  }

  /** A generated schema that stands on its own: its local references, whatever their length, lead to
      something in it. */
  ghost predicate SelfContained(s: GeneratedSchema) {
    IsSchema(s.value) && forall r :: r in Refs(s.value) && DEFS <= r ==> Resolve(s.value, r).Some?
  }

  /** `annotate_schema` adds titles: no reference changes and no path is lost. */
  ghost predicate OnlyTitles(host: Host) {
    forall n, v ::
      && Refs(host.annotate(n, v)) == Refs(v)
      && EntryRefs(n, host.annotate(n, v)) == EntryRefs(n, v)
      && forall path :: Lookup(v, path).Some? ==> Lookup(host.annotate(n, v), path).Some?
  }

  // ----- rewriting, entry by entry -----

  lemma DefsOfMapped(v: Value, f: string -> string, n: string)
    requires n in LocalDefs(v)
    ensures n in LocalDefs(MapRefs(v, f))
    ensures EntryRefs(n, LocalDefs(MapRefs(v, f))[n]) == Image(f, EntryRefs(n, LocalDefs(v)[n]))
  {
    RewriteKeepsNames(v, f);
    var w := LocalDefs(v)[n];
    if n == REF_KEY && w.Str? {
      assert LocalDefs(MapRefs(v, f))[n] == Str(f(w.s));
      assert EntryRefs(n, w) == {w.s} && f(w.s) in Image(f, {w.s});
    } else {
      assert LocalDefs(MapRefs(v, f))[n] == MapRefs(w, f);
      RefsOfMapRefs(w, f);
    }
  }

  lemma BodyOfMapped(v: Value, f: string -> string)
    requires IsSchema(v)
    ensures Body(MapRefs(v, f)) == MapRefs(Body(v), f)
  {
    if v.Object? {
      assert Body(MapRefs(v, f)).fields == MapRefs(Body(v), f).fields;
    }
  }

  /** The references of a schema are those of its body and of its definitions. */
  lemma RefsOfSchema(v: Value, q: string)
    requires IsSchema(v)
    ensures q in Refs(v) <==> q in Refs(Body(v)) || exists n :: n in LocalDefs(v) && q in EntryRefs(n, LocalDefs(v)[n])
  {
    if v.Object? {
      if "definitions" in v.fields {
        RefsSplit(v.fields, "definitions");
        RefsByEntry(LocalDefs(v), q);
      } else {
        assert v.fields - {"definitions"} == v.fields;
      }
    }
  }

  /** The references of the body and of the definitions that are not skipped by name. */
  ghost predicate KeptRef(v: Value, q: string) {
    q in Refs(Body(v)) || exists n :: n in KeptNames(LocalDefs(v)) && q in EntryRefs(n, LocalDefs(v)[n])
  }

  // ----- a namespaced schema -----

  /** The second rewriting of a definition finds nothing left to do. */
  lemma ContributionIs(s: GeneratedSchema, ns: string, host: Host, n: string, f: string -> string, w: Value)
    requires IsSchema(s.value) && n in LocalDefs(s.value) && OnlyTitles(host) && f == InNamespace(ns)
    requires n in LocalDefs(MapRefs(s.value, f)) && w == LocalDefs(MapRefs(s.value, f))[n]
    ensures MapRefs(host.annotate(n, w), f) == host.annotate(n, w)
  {
    DefsOfMapped(s.value, f, n);
    forall r | r in Refs(host.annotate(n, w)) ensures f(r) == r {
      assert r in EntryRefs(n, w);
      var q :| q in EntryRefs(n, LocalDefs(s.value)[n]) && f(q) == r;
      ToNamespaceIdempotent(q, ns);
    }
    MapRefsFixed(host.annotate(n, w), f);
  }

  lemma ContributionRefs(s: GeneratedSchema, ns: string, host: Host, n: string, added: map<string, Value>)
    requires IsSchema(s.value) && OnlyTitles(host)
    requires added == Contributions(LocalDefs(MapRefs(s.value, InNamespace(ns))), ns, host) && n in added
    ensures n in KeptNames(LocalDefs(s.value)) && EntryRefs(n, added[n]) == Image(InNamespace(ns), EntryRefs(n, LocalDefs(s.value)[n]))
  {
    var f := InNamespace(ns);
    RewriteKeepsNames(s.value, f);
    DefsOfMapped(s.value, f, n);
    ContributionIs(s, ns, host, n, f, LocalDefs(MapRefs(s.value, f))[n]);
  }

  lemma OwnRefs(s: GeneratedSchema, f: string -> string)
    requires IsSchema(s.value)
    ensures EntryRefs(s.name, Body(MapRefs(s.value, f))) == Image(f, Refs(Body(s.value)))
  {
    BodyOfMapped(s.value, f);
    RefsOfMapRefs(Body(s.value), f);
  }

  /** Every reference a claim brings along is one of the schema's own, moved into the namespace. */
  lemma ClaimRefOrigin(s: GeneratedSchema, ns: string, host: Host, c: Claim, r: string) returns (q: string)
    requires s.namespace == Some(ns) && IsSchema(s.value) && OnlyTitles(host)
    requires c in ClaimsOf(s, host) && r in EntryRefs(c.name, c.schema)
    ensures KeptRef(s.value, q) && r == ToNamespace(q, ns)
  {
    var f := InNamespace(ns);
    var v := MapRefs(s.value, f);
    var added := Contributions(LocalDefs(v), ns, host);
    if c in ClaimsFor(ns, added) {
      ContributionRefs(s, ns, host, c.name, added);
      q :| q in EntryRefs(c.name, LocalDefs(s.value)[c.name]) && f(q) == r;
    } else {
      OwnRefs(s, f);
      q :| q in Refs(Body(s.value)) && f(q) == r;
    }
  }

  /** And every reference not skipped is brought along by one of the claims. */
  lemma ClaimRefShown(s: GeneratedSchema, ns: string, host: Host, q: string) returns (c: Claim)
    requires s.namespace == Some(ns) && Claims(s) && IsSchema(s.value) && OnlyTitles(host) && KeptRef(s.value, q)
    ensures c in ClaimsOf(s, host) && ToNamespace(q, ns) in EntryRefs(c.name, c.schema)
  {
    var f := InNamespace(ns);
    var v := MapRefs(s.value, f);
    if q in Refs(Body(s.value)) {
      OwnRefs(s, f);
      c := Claim(ns, s.name, Body(v));
      assert c in ClaimsFor(ns, map[s.name := Body(v)]) by {
        OneClaim(ns, s.name, Body(v), map[s.name := Body(v)]);
      }
      assert f(q) in Image(f, Refs(Body(s.value)));
    } else {
      var n :| n in KeptNames(LocalDefs(s.value)) && q in EntryRefs(n, LocalDefs(s.value)[n]);
      var added := Contributions(LocalDefs(v), ns, host);
      RewriteKeepsNames(s.value, f);
      assert n in added;
      ContributionRefs(s, ns, host, n, added);
      c := Claim(ns, n, added[n]);
      assert c in ClaimsFor(ns, added);
      assert f(q) in Image(f, EntryRefs(n, LocalDefs(s.value)[n]));
    }
  }

  /** A schema claims its definitions, with everything below them. */
  lemma ClaimedPath(s: GeneratedSchema, ns: string, host: Host, path: seq<string>) returns (c: Claim)
    requires s.namespace == Some(ns) && Claims(s) && IsSchema(s.value) && OnlyTitles(host)
    requires |path| > 0 && path[0] !in IGNORED + SPECIAL && Lookup(s.value, ["definitions"] + path).Some?
    ensures c in ClaimsOf(s, host) && c == Claim(ns, path[0], c.schema) && Lookup(c.schema, path[1..]).Some?
  {
    var f := InNamespace(ns);
    var v, n := MapRefs(s.value, f), path[0];
    var all := ["definitions"] + path;
    LookupMapped(s.value, f, all);
    DefinitionPath(s.value, path);
    DefinitionPath(v, path);
    var added := Contributions(LocalDefs(v), ns, host);
    assert n in added;
    RewriteKeepsNames(s.value, f);
    var annotated := host.annotate(n, LocalDefs(v)[n]);
    assert Lookup(annotated, path[1..]).Some?;
    LookupMapped(annotated, f, path[1..]);
    c := Claim(ns, n, added[n]);
    assert c in ClaimsFor(ns, added);
  }

  lemma DefinitionPath(v: Value, path: seq<string>)
    requires IsSchema(v) && |path| > 0
    ensures Lookup(v, ["definitions"] + path).Some? <==>
      path[0] in LocalDefs(v) && Lookup(LocalDefs(v)[path[0]], path[1..]).Some?
  {
    var all := ["definitions"] + path;
    assert all[1..] == path;
    if v.Object? && "definitions" in v.fields {
      assert Lookup(v, all) == Lookup(Object(LocalDefs(v)), path);
    }
  }

  // ----- a root schema -----

  /** What a forced pass makes of one reference. */
  function ForceRef(r: string, forced: seq<(string, string)>): string {
    if forced == [] then r
    else
      var (name, ns) := forced[|forced| - 1];
      NamedToNamespace(ForceRef(r, forced[..|forced| - 1]), ns, name)
  }

  lemma {:induction false} ForcedRefsOf(v: Value, forced: seq<(string, string)>, r: string)
    ensures r in Refs(ForceRefs(v, forced)) <==> exists q :: q in Refs(v) && ForceRef(q, forced) == r
  {
    if forced != [] {
      var k := |forced| - 1;
      var front, f := forced[..k], Named(forced[k].1, forced[k].0);
      var w := ForceRefs(v, front);
      RefsOfMapRefs(w, f);
      if r in Refs(ForceRefs(v, forced)) {
        var p :| p in Refs(w) && f(p) == r;
        ForcedRefsOf(v, front, p);
      }
      if exists q :: q in Refs(v) && ForceRef(q, forced) == r {
        var q :| q in Refs(v) && ForceRef(q, forced) == r;
        ForcedRefsOf(v, front, ForceRef(q, front));
        assert f(ForceRef(q, front)) in Image(f, Refs(w));
      }
    }
  }

  lemma {:induction false} ForcedPairs(names: seq<string>, defs: map<string, Value>, inV1: bool, types: map<string, string>)
    ensures forall p :: p in ForcedRefs(names, defs, inV1, types) ==> p.0 in defs && NamespaceFor(p.0, types) == Some(p.1)
  {
    if names != [] {
      ForcedPairs(names[..|names| - 1], defs, inV1, types);
    }
  }

  lemma {:induction false} ForceIdle(r: string, forced: seq<(string, string)>)
    requires forall p :: p in forced ==> NamedToNamespace(r, p.1, p.0) == r
    ensures ForceRef(r, forced) == r
  {
    if forced != [] {
      var k := |forced| - 1;
      assert forced[k] in forced;
      ForceIdle(r, forced[..k]);
    }
  }

  /** The definitions of a root schema that live in a namespace. */
  function ForcedOf(s: GeneratedSchema, job: Job): seq<(string, string)> {
    ForcedRefs(job.host.order(LocalDefs(s.value).Keys), LocalDefs(s.value), s.inV1, job.types)
  }

  lemma {:induction false} ForcedByNames(names: seq<string>, defs: map<string, Value>, defs': map<string, Value>, inV1: bool, types: map<string, string>)
    requires defs.Keys == defs'.Keys
    ensures ForcedRefs(names, defs, inV1, types) == ForcedRefs(names, defs', inV1, types)
  {
    if names != [] {
      ForcedByNames(names[..|names| - 1], defs, defs', inV1, types);
    }
  }

  /** The part of a root schema that is written under a name. */
  function Part(s: GeneratedSchema, x: string): Value {
    if x == s.name then Body(s.value) else if x in LocalDefs(s.value) then LocalDefs(s.value)[x] else Null
  }

  /** How a reference in that part is spelled in the bundle. */
  function Redirect(s: GeneratedSchema, job: Job, x: string, q: string): string {
    var r := ToKnownNamespace(q, job.types);
    if x == s.name then ForceRef(r, ForcedOf(s, job)) else r
  }

  lemma RootWriteIs(s: GeneratedSchema, job: Job, x: string, v: Value)
    requires s.namespace.None? && x in RootWrites(s, job) && v == MapRefs(s.value, Known(job.types))
    ensures x == s.name ==> RootWrites(s, job)[x] == ForceRefs(Body(v), ForcedOf(s, job))
    ensures x != s.name ==> x in LocalDefs(s.value) && x in LocalDefs(v) && RootWrites(s, job)[x] == job.host.annotate(x, LocalDefs(v)[x])
  {
    RewriteKeepsNames(s.value, Known(job.types));
    ForcedByNames(job.host.order(LocalDefs(s.value).Keys), LocalDefs(s.value), LocalDefs(v), s.inV1, job.types);
  }

  lemma {:induction false} ForceKeepsKind(v: Value, forced: seq<(string, string)>)
    ensures ForceRefs(v, forced).Str? <==> v.Str?
  {
    if forced != [] {
      ForceKeepsKind(v, forced[..|forced| - 1]);
    }
  }

  /** The references of what a root schema writes are those of the part written, redirected. */
  lemma RootRefs(s: GeneratedSchema, job: Job, x: string, r: string)
    requires s.namespace.None? && IsSchema(s.value) && OnlyTitles(job.host) && x in RootWrites(s, job)
    ensures r in EntryRefs(x, RootWrites(s, job)[x]) <==> exists q :: q in EntryRefs(x, Part(s, x)) && Redirect(s, job, x, q) == r
  {
    var f := Known(job.types);
    var v := MapRefs(s.value, f);
    RootWriteIs(s, job, x, v);
    if x == s.name {
      OwnRootRefs(s, job, r, v);
    } else {
      DefsOfMapped(s.value, f, x);
      assert EntryRefs(x, RootWrites(s, job)[x]) == Image(f, EntryRefs(x, Part(s, x)));
      if r in Image(f, EntryRefs(x, Part(s, x))) {
        var q :| q in EntryRefs(x, Part(s, x)) && f(q) == r;
        assert Redirect(s, job, x, q) == r;
      }
    }
  }

  lemma OwnRootRefs(s: GeneratedSchema, job: Job, r: string, v: Value)
    requires s.namespace.None? && IsSchema(s.value) && v == MapRefs(s.value, Known(job.types))
    ensures r in EntryRefs(s.name, ForceRefs(Body(v), ForcedOf(s, job))) <==>
      exists q :: q in EntryRefs(s.name, Body(s.value)) && Redirect(s, job, s.name, q) == r
  {
    var f, forced := Known(job.types), ForcedOf(s, job);
    BodyOfMapped(s.value, f);
    RefsOfMapRefs(Body(s.value), f);
    ForceKeepsKind(Body(v), forced);
    ForcedRefsOf(Body(v), forced, r);
    if r in Refs(ForceRefs(Body(v), forced)) {
      var p :| p in Refs(Body(v)) && ForceRef(p, forced) == r;
      var q :| q in Refs(Body(s.value)) && f(q) == p;
      assert Redirect(s, job, s.name, q) == r;
    }
    forall q | q in Refs(Body(s.value)) && Redirect(s, job, s.name, q) == r ensures r in Refs(ForceRefs(Body(v), forced)) {
      assert f(q) in Refs(Body(v)) && ForceRef(f(q), forced) == r;
    }
  }

  // ----- local references stay local -----

  lemma NamedStaysLocal(r: string, ns: string, name: string)
    ensures DEFS <= NamedToNamespace(r, ns, name) <==> DEFS <= r
  {
    if r == DEFS + name {
    } else if DEFS + name + "/" <= r {
      assert DEFS <= DEFS + name + "/";
    }
  }

  lemma {:induction false} ForceStaysLocal(r: string, forced: seq<(string, string)>)
    ensures DEFS <= ForceRef(r, forced) <==> DEFS <= r
  {
    if forced != [] {
      var k := |forced| - 1;
      ForceStaysLocal(r, forced[..k]);
      NamedStaysLocal(ForceRef(r, forced[..k]), forced[k].1, forced[k].0);
    }
  }

  lemma RedirectStaysLocal(s: GeneratedSchema, job: Job, x: string, q: string)
    ensures DEFS <= Redirect(s, job, x, q) <==> DEFS <= q
  {
    ForceStaysLocal(ToKnownNamespace(q, job.types), ForcedOf(s, job));
  }
}
