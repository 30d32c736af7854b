/** The flat document read back, name by name, against the bundle it was made from
    (codex-rs/app-server-protocol/src/export.rs:1076-1186). */
module FlatReading {
  import opened Text
  import opened Json
  import opened JsonPaths
  import opened References
  import opened Reachability
  import opened FlatSchema
  import opened FlatMeaning

  // ----- which root names are pulled in -----

  predicate IsShared(n: string) {
    n == "ClientRequest" || n == "ServerNotification"
  }

  /** Somewhere in the definition of `n` there is a reference `#/definitions/<m>`, and it is none into v2. */
  ghost predicate Needs(definitions: map<string, Value>, n: string, m: string) {
    n in definitions && !("v2/" <= m) && exists path :: RefAt(definitions[n], path, DEFS + m)
  }

  ghost predicate NeedChain(definitions: map<string, Value>, chain: seq<string>) {
    forall i :: 0 <= i < |chain| - 1 ==> Needs(definitions, chain[i], chain[i + 1])
  }

  /** The name is shared, or a chain of references leads to it from a shared definition. */
  ghost predicate Wanted(definitions: map<string, Value>, n: string) {
    exists chain :: |chain| > 0 && IsShared(chain[0]) && chain[|chain| - 1] == n && NeedChain(definitions, chain)
  }

  lemma NeedsAreDependents(definitions: map<string, Value>, n: string, m: string)
    ensures Needs(definitions, n, m) <==> m in Dependents(definitions)(n)
  {
    if n in definitions {
      var r := DEFS + m;
      assert r[|DEFS|..] == m;
      RefsAreAtPaths(definitions[n], r);
      StripPrefix(DEFS, "v2/", m);
      assert V2_DEFS == DEFS + "v2/";
      if m in NonV2Names(definitions[n]) {
        var q :| q in Refs(definitions[n]) && DEFS <= q && !(V2_DEFS <= q) && q[|DEFS|..] == m;
        assert q == r;
      }
    }
  }

  lemma SharedNeeds(definitions: map<string, Value>, m: string)
    ensures m in SharedRefs(definitions) <==> exists s :: IsShared(s) && Needs(definitions, s, m)
  {
    forall s ensures Needs(definitions, s, m) <==> m in Dependents(definitions)(s) {
      NeedsAreDependents(definitions, s, m);
    }
    forall s ensures IsShared(s) <==> s in SHARED {
    }
  }

  lemma PathIsChain(definitions: map<string, Value>, path: seq<string>)
    ensures IsPath(Dependents(definitions), path) <==> |path| > 0 && NeedChain(definitions, path)
  {
    forall i | 0 <= i < |path| - 1 ensures path[i + 1] in Dependents(definitions)(path[i]) <==> Needs(definitions, path[i], path[i + 1]) {
      NeedsAreDependents(definitions, path[i], path[i + 1]);
    }
  }

  lemma PulledIsWanted(definitions: map<string, Value>, n: string)
    requires n in Pulled(definitions)
    ensures Wanted(definitions, n)
  {
    var start := SharedRefs(definitions);
    var path :| IsPath(Dependents(definitions), path) && path[0] in start && path[|path| - 1] == n;
    PathIsChain(definitions, path);
    SharedNeeds(definitions, path[0]);
    var s :| IsShared(s) && Needs(definitions, s, path[0]);
    ChainFrom(definitions, s, path, [s] + path);
  }

  lemma ChainFrom(definitions: map<string, Value>, s: string, path: seq<string>, chain: seq<string>)
    requires |path| > 0 && Needs(definitions, s, path[0]) && NeedChain(definitions, path) && chain == [s] + path
    ensures NeedChain(definitions, chain) && chain[0] == s && chain[|chain| - 1] == path[|path| - 1]
  {
    forall i | 0 <= i < |chain| - 1 ensures Needs(definitions, chain[i], chain[i + 1]) {
      if i > 0 {
        assert chain[i] == path[i - 1] && chain[i + 1] == path[(i - 1) + 1];
      }
    }
  }

  lemma WantedIsPulled(definitions: map<string, Value>, n: string)
    requires Wanted(definitions, n) && !IsShared(n)
    ensures n in Pulled(definitions)
  {
    var chain :| |chain| > 0 && IsShared(chain[0]) && chain[|chain| - 1] == n && NeedChain(definitions, chain);
    assert |chain| > 1;
    var path := chain[1..];
    assert Needs(definitions, chain[0], chain[0 + 1]);
    SharedNeeds(definitions, path[0]);
    forall i | 0 <= i < |path| - 1 ensures Needs(definitions, path[i], path[i + 1]) {
      assert Needs(definitions, chain[i + 1], chain[(i + 1) + 1]);
    }
    PathIsChain(definitions, path);
    assert path[|path| - 1] == n;
  }

  /** The names of the flat document: all of v2, and the root names that are wanted. */
  ghost predicate InFlat(definitions: map<string, Value>, v2: map<string, Value>, n: string) {
    n in v2 || (n in definitions && n != "v2" && Wanted(definitions, n))
  }

  /** The definition that wins: a shared one over v2, v2 over any other. */
  function Winner(definitions: map<string, Value>, v2: map<string, Value>, n: string): Value
    requires n in v2 || n in definitions
  {
    if IsShared(n) && n in definitions then definitions[n] else if n in v2 then v2[n] else definitions[n]
  }

  lemma FlatAt(definitions: map<string, Value>, v2: map<string, Value>, pulled: set<string>, n: string, flat: map<string, Value>)
    requires flat == FlatDefinitions(definitions, v2, pulled)
    ensures n in flat <==> n in v2 || (n in definitions && n != "v2" && (n in pulled || IsShared(n)))
    ensures n in flat ==> flat[n] == Winner(definitions, v2, n)
  {
    assert IsShared(n) <==> n in SHARED;
  }

  /** All of v2 and the wanted root names, each with the definition that wins. */
  lemma FlatNames(definitions: map<string, Value>, v2: map<string, Value>, n: string)
    ensures n in FlatMap(definitions, v2) <==> InFlat(definitions, v2, n)
    ensures InFlat(definitions, v2, n) ==> FlatMap(definitions, v2)[n] == Winner(definitions, v2, n)
  {
    FlatAt(definitions, v2, Pulled(definitions), n, FlatMap(definitions, v2));
    if n in Pulled(definitions) {
      PulledIsWanted(definitions, n);
    }
    if IsShared(n) {
      SharedIsWanted(definitions, n);
    } else if Wanted(definitions, n) {
      WantedIsPulled(definitions, n);
    }
  }

  lemma SharedIsWanted(definitions: map<string, Value>, n: string)
    requires IsShared(n)
    ensures Wanted(definitions, n)
  {
    assert [n][0] == n && NeedChain(definitions, [n]);
  }

  // ----- the document -----

  lemma AcceptedIs(bundle: Value, root: map<string, Value>, definitions: map<string, Value>, v2: map<string, Value>)
    requires Splits(bundle, root, definitions, v2) && FlatV2(bundle).Ok?
    ensures FlatV2(bundle).value == FlatDocument(root, definitions, v2)
  {
  }

  /** For every accepted bundle, the names under `definitions` and what each holds. */
  lemma FlatDefinitionsRead(bundle: Value, root: map<string, Value>, definitions: map<string, Value>, v2: map<string, Value>, n: string)
    requires Splits(bundle, root, definitions, v2) && FlatV2(bundle).Ok?
    ensures Lookup(FlatV2(bundle).value, ["definitions", n]).Some? <==> InFlat(definitions, v2, n)
    ensures InFlat(definitions, v2, n) && n != "$ref" ==>
      Lookup(FlatV2(bundle).value, ["definitions", n]) == Some(MapRefs(Winner(definitions, v2, n), Flatten))
  {
    AcceptedIs(bundle, root, definitions, v2);
    FlatNames(definitions, v2, n);
    DefinitionOf(root, FlatMap(definitions, v2), n, FlatDocument(root, definitions, v2));
  }

  lemma DefinitionOf(root: map<string, Value>, flat: map<string, Value>, n: string, document: Value)
    requires document == MapRefs(Object(Unrewritten(root, flat)), Flatten)
    ensures Lookup(document, ["definitions", n]).Some? <==> n in flat
    ensures n in flat && n != "$ref" ==> Lookup(document, ["definitions", n]) == Some(MapRefs(flat[n], Flatten))
  {
    assert document.fields["definitions"] == MapRefs(Object(flat), Flatten);
    assert ["definitions", n][1..] == [n];
    assert Lookup(document, ["definitions", n]) == Lookup(MapRefs(Object(flat), Flatten), [n]);
    LookupOne(MapRefs(Object(flat), Flatten).fields, n);
  }

  lemma MemberOf(root: map<string, Value>, flat: map<string, Value>, k: string, document: Value)
    requires document == MapRefs(Object(Unrewritten(root, flat)), Flatten) && "definitions" in root
    ensures document.Object? && (k in document.fields <==> k in root || k == "title")
    ensures k in root && k !in {"title", "definitions", "$ref"} ==> document.fields[k] == MapRefs(root[k], Flatten)
    ensures k == "title" ==> document.fields[k] == Str(FlatTitle(root))
  {
  }

  /** Every other member of the bundle is kept with its references flattened, and the title is extended. */
  lemma FlatRootRead(bundle: Value, root: map<string, Value>, definitions: map<string, Value>, v2: map<string, Value>, k: string)
    requires Splits(bundle, root, definitions, v2) && FlatV2(bundle).Ok?
    ensures k != "title" ==> (Lookup(FlatV2(bundle).value, [k]).Some? <==> Lookup(bundle, [k]).Some?)
    ensures k !in {"title", "definitions", "$ref"} && k in root ==> Lookup(FlatV2(bundle).value, [k]) == Some(MapRefs(root[k], Flatten))
    ensures Lookup(FlatV2(bundle).value, ["title"]) ==
      Some(Str((if "title" in root && root["title"].Str? then root["title"].s else "CodexAppServerProtocol") + "V2"))
  {
    var document := FlatDocument(root, definitions, v2);
    AcceptedIs(bundle, root, definitions, v2);
    MemberOf(root, FlatMap(definitions, v2), k, document);
    MemberOf(root, FlatMap(definitions, v2), "title", document);
    LookupOne(document.fields, k);
    LookupOne(root, k);
    LookupOne(document.fields, "title");
  }

  /** The errors that come before any reference is looked at. */
  lemma FlatErrors(bundle: Value)
    ensures FlatV2(bundle) == Err(RootNotObject) <==> !bundle.Object?
    ensures FlatV2(bundle) == Err(NoDefinitions) <==>
      bundle.Object? && !("definitions" in bundle.fields && bundle.fields["definitions"].Object?)
    ensures FlatV2(bundle) == Err(NoV2Namespace) <==>
      && bundle.Object? && "definitions" in bundle.fields && bundle.fields["definitions"].Object?
      && !("v2" in bundle.fields["definitions"].fields && bundle.fields["definitions"].fields["v2"].Object?)
  {
    if bundle.Object? && "definitions" in bundle.fields && bundle.fields["definitions"].Object? {
      var root, definitions := bundle.fields, bundle.fields["definitions"].fields;
      if "v2" in definitions && definitions["v2"].Object? {
        var document := FlatDocument(root, definitions, definitions["v2"].fields);
        assert document.fields["definitions"] == MapRefs(Object(FlatMap(definitions, definitions["v2"].fields)), Flatten);
      }
    }
  }

  /** Which names a rejected bundle is said to miss: the first names of flattened references that are in no
      flat definition. */
  lemma MissingAreRead(bundle: Value, root: map<string, Value>, definitions: map<string, Value>, v2: map<string, Value>, names: set<string>, n: string)
    requires Splits(bundle, root, definitions, v2) && FlatV2(bundle) == Err(MissingDefinitions(names))
    ensures n in names <==>
      !InFlat(definitions, v2, n)
      && exists path, r :: RefAt(FlatDocument(root, definitions, v2), path, r) && DEFS <= r && FirstSegment(r[|DEFS|..]) == n
  {
    var document, flat := FlatDocument(root, definitions, v2), FlatMap(definitions, v2);
    assert document.fields["definitions"] == MapRefs(Object(flat), Flatten);
    assert document.fields["definitions"].fields.Keys == flat.Keys;
    FlatNames(definitions, v2, n);
    if n in names {
      var r :| r in Refs(document) && DEFS <= r && FirstSegment(r[|DEFS|..]) == n && n !in flat;
      RefsAreAtPaths(document, r);
    }
    forall path, r | RefAt(document, path, r) && DEFS <= r && FirstSegment(r[|DEFS|..]) == n && !InFlat(definitions, v2, n) ensures n in names {
      RefsAreAtPaths(document, r);
    }
  }
}
