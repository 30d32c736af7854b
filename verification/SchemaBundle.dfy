/** Bundling of the generated schemas: `build_schema_bundle` and its helpers
    (codex-rs/app-server-protocol/src/export.rs:993-1074, 1280-1323, 1616-1650). */
module SchemaBundle {
  import opened Text
  import opened Json
  import opened References

  /** One generated schema. `namespace` is None for root and v1 schemas. */
  datatype GeneratedSchema = GeneratedSchema(namespace: Option<string>, name: string, value: Value, inV1: bool)

  datatype BundleError = NamespaceNotObject(ns: string) | Collision(ns: string)

  /** The parts of the exporter that stay abstract: `annotate_schema`, and the order in which
      a JSON map yields its keys. */
  datatype Host = Host(annotate: (string, Value) -> Value, order: set<string> -> seq<string>)

  ghost predicate Enumerates(keys: seq<string>, names: set<string>) {
    && (forall i, j :: 0 <= i < j < |keys| ==> keys[i] != keys[j])
    && (forall n :: n in keys <==> n in names)
  }

  ghost predicate Sound(host: Host) {
    forall names: set<string> :: Enumerates(host.order(names), names)
  }

  const IGNORED: set<string> := {"Option<()>"}
  const SPECIAL: set<string> := {"ClientNotification", "ClientRequest", "ServerNotification", "ServerRequest"}

  /** The definition map stored under a key of a schema, if there is one. */
  function MapUnder(v: Value, key: string): map<string, Value> {
    if v.Object? && key in v.fields && v.fields[key].Object? then v.fields[key].fields else map[]
  }

  function LocalDefs(v: Value): map<string, Value> {
    MapUnder(v, "definitions")
  }

  /** The schema without its own definition map. */
  function Body(v: Value): Value {
    if v.Object? then Object(v.fields - {"definitions"}) else v
  }

  // ----- the namespace of a name -----

  function TypeNames(s: GeneratedSchema): set<string> {
    {s.name} + LocalDefs(s.value).Keys + MapUnder(s.value, "$defs").Keys
  }

  /** `collect_namespaced_types`: the first namespace to mention a name keeps it. */
  function NamespacedTypes(schemas: seq<GeneratedSchema>): map<string, string> {
    if schemas == [] then map[]
    else
      var last := schemas[|schemas| - 1];
      var before := NamespacedTypes(schemas[..|schemas| - 1]);
      if last.namespace.None? then before
      else (map n | n in TypeNames(last) :: last.namespace.value) + before
  }

  function TrimDigits(name: string): string {
    if name != "" && '0' <= name[|name| - 1] <= '9' then TrimDigits(name[..|name| - 1]) else name
  }

  /** `namespace_for_definition` */
  function NamespaceFor(name: string, types: map<string, string>): Option<string> {
    if name in types then Some(types[name])
    else
      var trimmed := TrimDigits(name);
      if trimmed != name && trimmed in types then Some(types[trimmed]) else None
  }

  /** `rewrite_refs_to_known_namespaces`, on one reference. */
  function ToKnownNamespace(r: string, types: map<string, string>): string {
    if DEFS <= r then
      match NamespaceFor(FirstSegment(r[|DEFS|..]), types)
      case Some(ns) => DEFS + ns + "/" + r[|DEFS|..]
      case None => r
    else r
  }

  function InNamespace(ns: string): string -> string { r => ToNamespace(r, ns) }

  function Known(types: map<string, string>): string -> string { r => ToKnownNamespace(r, types) }

  function Named(ns: string, name: string): string -> string { r => NamedToNamespace(r, ns, name) }

  // ----- one schema -----

  function RewriteAll(v: Value, namespace: Option<string>, types: map<string, string>): Value {
    match namespace
    case Some(ns) => MapRefs(v, InNamespace(ns))
    case None => MapRefs(v, Known(types))
  }

  function KeptNames(defs: map<string, Value>): set<string> {
    defs.Keys - IGNORED - SPECIAL
  }

  /** The schemas a namespaced schema adds for its own definitions. */
  function Contributions(defs: map<string, Value>, ns: string, host: Host): map<string, Value> {
    map n | n in KeptNames(defs) :: MapRefs(host.annotate(n, defs[n]), InNamespace(ns))
  }

  function NamespaceContent(definitions: map<string, Value>, ns: string): map<string, Value> {
    MapUnder(Object(definitions), ns)
  }

  predicate Agree(existing: map<string, Value>, added: map<string, Value>) {
    forall n :: n in added && n in existing ==> existing[n] == added[n]
  }

  /** `insert_into_namespace`, for all entries of a map at once. */
  function InsertAll(definitions: map<string, Value>, ns: string, added: map<string, Value>)
    : Result<map<string, Value>, BundleError>
  {
    if added == map[] then Ok(definitions)
    else if ns in definitions && !definitions[ns].Object? then Err(NamespaceNotObject(ns))
    else if !Agree(NamespaceContent(definitions, ns), added) then Err(Collision(ns))
    else Ok(definitions[ns := Object(NamespaceContent(definitions, ns) + added)])
  }

  /** Target namespace of a definition of a root schema. */
  function RootTarget(n: string, inV1: bool, types: map<string, string>): Option<string> {
    if inV1 then None else NamespaceFor(n, types)
  }

  /** Definitions a root schema adds at the root. */
  function RootContributions(defs: map<string, Value>, inV1: bool, types: map<string, string>, host: Host): map<string, Value> {
    map n | n in KeptNames(defs) && RootTarget(n, inV1, types).None? :: host.annotate(n, defs[n])
  }

  /** `forced_namespace_refs`: definitions of a root schema that live in a namespace, in map order.
      Map keys are distinct, so the source's duplicate check never fires. */
  function ForcedRefs(names: seq<string>, defs: map<string, Value>, inV1: bool, types: map<string, string>): seq<(string, string)> {
    if names == [] then []
    else
      var last := names[|names| - 1];
      ForcedRefs(names[..|names| - 1], defs, inV1, types)
      + (if last in KeptNames(defs) && RootTarget(last, inV1, types).Some?
         then [(last, RootTarget(last, inV1, types).value)] else [])
  }

  function ForceRefs(v: Value, forced: seq<(string, string)>): Value {
    if forced == [] then v
    else
      var (name, ns) := forced[|forced| - 1];
      MapRefs(ForceRefs(v, forced[..|forced| - 1]), Named(ns, name))
  }

  function AddNamespaced(definitions: map<string, Value>, name: string, v: Value, ns: string, host: Host)
    : Result<map<string, Value>, BundleError>
  {
    match InsertAll(definitions, ns, Contributions(LocalDefs(v), ns, host))
    case Err(e) => Err(e)
    case Ok(definitions') => InsertAll(definitions', ns, map[name := Body(v)])
  }

  function AddRoot(definitions: map<string, Value>, name: string, v: Value, inV1: bool, types: map<string, string>, host: Host)
    : map<string, Value>
  {
    var defs := LocalDefs(v);
    (definitions + RootContributions(defs, inV1, types, host))
      [name := ForceRefs(Body(v), ForcedRefs(host.order(defs.Keys), defs, inV1, types))]
  }

  /** One turn of the loop of `build_schema_bundle`. */
  function AddSchema(definitions: map<string, Value>, s: GeneratedSchema, types: map<string, string>, host: Host)
    : Result<map<string, Value>, BundleError>
  {
    if s.name in IGNORED then Ok(definitions)
    else
      var v := RewriteAll(s.value, s.namespace, types);
      match s.namespace
      case Some(ns) => AddNamespaced(definitions, s.name, v, ns, host)
      case None => Ok(AddRoot(definitions, s.name, v, s.inV1, types, host))
  }

  function AddSchemas(schemas: seq<GeneratedSchema>, types: map<string, string>, host: Host)
    : Result<map<string, Value>, BundleError>
  {
    if schemas == [] then Ok(map[])
    else
      match AddSchemas(schemas[..|schemas| - 1], types, host)
      case Err(e) => Err(e)
      case Ok(definitions) => AddSchema(definitions, schemas[|schemas| - 1], types, host)
  }

  function BundleRoot(definitions: map<string, Value>): Value {
    Object(map[
      "$schema" := Str("http://json-schema.org/draft-07/schema#"),
      "title" := Str("CodexAppServerProtocol"),
      "type" := Str("object"),
      "definitions" := Object(definitions)])
  }

  /** What `build_schema_bundle` returns. */
  function Bundle(schemas: seq<GeneratedSchema>, host: Host): Result<Value, BundleError> {
    match AddSchemas(schemas, NamespacedTypes(schemas), host)
    case Err(e) => Err(e)
    case Ok(definitions) => Ok(BundleRoot(definitions))
  }

  // ----- the loops -----

  /** Inserting one more entry after a batch is inserting the larger batch. */
  lemma InsertAllStep(definitions: map<string, Value>, ns: string, added: map<string, Value>, n: string, schema: Value)
    requires n !in added
    ensures var larger := InsertAll(definitions, ns, added[n := schema]);
      match InsertAll(definitions, ns, added)
      case Err(e) => larger == Err(e)
      case Ok(d) => larger == InsertAll(d, ns, map[n := schema])
  {
    var one := map[n := schema];
    var larger := added[n := schema];
    assert larger == added + one;
    if added != map[] && InsertAll(definitions, ns, added).Ok? {
      var d := InsertAll(definitions, ns, added).value;
      var content, content' := NamespaceContent(definitions, ns), NamespaceContent(d, ns);
      assert content' == content + added;
      assert Agree(content', one) <==> Agree(content, larger) by {
        assert n in content' <==> n in content;
      }
      assert content' + one == content + larger;
      if Agree(content', one) {
        assert d[ns := Object(content' + one)] == definitions[ns := Object(content + larger)];
      }
    } else if added == map[] {
      assert larger == one;
    } else if !Agree(NamespaceContent(definitions, ns), added) {
      var m :| m in added && m in NamespaceContent(definitions, ns) && NamespaceContent(definitions, ns)[m] != added[m];
      assert m in larger && larger[m] == added[m];
    }
  }

  function Prefix(m: map<string, Value>, keys: seq<string>): map<string, Value> {
    map n | n in m && n in keys :: m[n]
  }

  lemma PrefixStep(m: map<string, Value>, keys: seq<string>, n: string)
    requires n !in keys
    ensures Prefix(m, keys + [n]) == if n in m then Prefix(m, keys)[n := m[n]] else Prefix(m, keys)
  {
  }

  /** The inner loop for a namespaced schema: its contributions go in one at a time, in map order. */
  method InsertDefinitions(definitions: map<string, Value>, ns: string, added: map<string, Value>, keys: seq<string>)
    returns (result: Result<map<string, Value>, BundleError>)
    requires forall i, j :: 0 <= i < j < |keys| ==> keys[i] != keys[j]
    requires forall n :: n in added ==> n in keys
    ensures result == InsertAll(definitions, ns, added)
  {
    result := Ok(definitions);
    for i := 0 to |keys|
      invariant result == InsertAll(definitions, ns, Prefix(added, keys[..i]))
    {
      var n := keys[i];
      assert keys[..i + 1] == keys[..i] + [n];
      PrefixStep(added, keys[..i], n);
      if n in added {
        InsertAllStep(definitions, ns, Prefix(added, keys[..i]), n, added[n]);
        if result.Ok? {
          result := InsertAll(result.value, ns, map[n := added[n]]);
        }
      }
    }
    assert keys[..|keys|] == keys;
    assert Prefix(added, keys) == added;
  }

  /** The inner loop for a root schema. */
  method InsertRootDefinitions(definitions: map<string, Value>, defs: map<string, Value>, inV1: bool, types: map<string, string>, host: Host)
    returns (result: map<string, Value>, forced: seq<(string, string)>)
    requires Enumerates(host.order(defs.Keys), defs.Keys)
    ensures result == definitions + RootContributions(defs, inV1, types, host)
    ensures forced == ForcedRefs(host.order(defs.Keys), defs, inV1, types)
  {
    var keys := host.order(defs.Keys);
    ghost var all := RootContributions(defs, inV1, types, host);
    result, forced := definitions, [];
    for i := 0 to |keys|
      invariant result == definitions + Prefix(all, keys[..i])
      invariant forced == ForcedRefs(keys[..i], defs, inV1, types)
    {
      var n := keys[i];
      assert keys[..i + 1] == keys[..i] + [n];
      RootStep(defs, inV1, types, host, keys[..i], n, definitions, all, result);
      ForcedStep(keys[..i], n, defs, inV1, types);
      if n in KeptNames(defs) {
        var target := RootTarget(n, inV1, types);
        if target.Some? {
          forced := forced + [(n, target.value)];
        } else {
          result := result[n := host.annotate(n, defs[n])];
        }
      }
    }
    assert keys[..|keys|] == keys;
    AllOf(all, keys, defs);
  }

  lemma AllOf(all: map<string, Value>, keys: seq<string>, defs: map<string, Value>)
    requires all.Keys <= defs.Keys && forall n :: n in defs ==> n in keys
    ensures Prefix(all, keys) == all
  {
  }

  lemma RootStep(defs: map<string, Value>, inV1: bool, types: map<string, string>, host: Host, keys: seq<string>, n: string,
    definitions: map<string, Value>, all: map<string, Value>, before: map<string, Value>)
    requires all == RootContributions(defs, inV1, types, host) && before == definitions + Prefix(all, keys)
    ensures definitions + Prefix(all, keys + [n]) ==
      if n in KeptNames(defs) && RootTarget(n, inV1, types).None? then before[n := host.annotate(n, defs[n])] else before
  {
  }

  lemma ForcedStep(keys: seq<string>, n: string, defs: map<string, Value>, inV1: bool, types: map<string, string>)
    ensures ForcedRefs(keys + [n], defs, inV1, types) == ForcedRefs(keys, defs, inV1, types)
      + (if n in KeptNames(defs) && RootTarget(n, inV1, types).Some?
         then [(n, RootTarget(n, inV1, types).value)] else [])
  {
    assert (keys + [n])[..|keys|] == keys;
  }

  method ApplyForced(v: Value, forced: seq<(string, string)>) returns (result: Value)
    ensures result == ForceRefs(v, forced)
  {
    result := v;
    for i := 0 to |forced|
      invariant result == ForceRefs(v, forced[..i])
    {
      assert forced[..i + 1][..i] == forced[..i];
      var (name, ns) := forced[i];
      result := MapRefs(result, Named(ns, name));
    }
    assert forced[..|forced|] == forced;
  }

  /** `types.entry(name).or_insert(ns)` for each name. */
  method OrInsertAll(types: map<string, string>, names: set<string>, ns: string) returns (result: map<string, string>)
    ensures result == (map n | n in names :: ns) + types
  {
    result := types;
    var rest := names;
    while rest != {}
      invariant rest <= names && result == (map n | n in names - rest :: ns) + types
      decreases rest
    {
      var n :| n in rest;
      rest := rest - {n};
      if n !in result {
        result := result[n := ns];
      }
    }
    assert names - rest == names;
  }

  method CollectNamespacedTypes(schemas: seq<GeneratedSchema>) returns (types: map<string, string>)
    ensures types == NamespacedTypes(schemas)
  {
    types := map[];
    for i := 0 to |schemas|
      invariant types == NamespacedTypes(schemas[..i])
    {
      assert schemas[..i + 1][..i] == schemas[..i];
      if schemas[i].namespace.Some? {
        types := OrInsertAll(types, TypeNames(schemas[i]), schemas[i].namespace.value);
      }
    }
    assert schemas[..|schemas|] == schemas;
  }

  /** The body of the main loop, for a schema that is not ignored. */
  method BundleOne(definitions: map<string, Value>, s: GeneratedSchema, types: map<string, string>, host: Host)
    returns (result: Result<map<string, Value>, BundleError>)
    requires Sound(host)
    ensures result == AddSchema(definitions, s, types, host)
  {
    if s.name in IGNORED {
      return Ok(definitions);
    }
    var v := RewriteAll(s.value, s.namespace, types);
    match s.namespace
    case Some(ns) =>
      var defs := LocalDefs(v);
      result := InsertDefinitions(definitions, ns, Contributions(defs, ns, host), host.order(defs.Keys));
      if result.Ok? {
        result := InsertAll(result.value, ns, map[s.name := Body(v)]);
      }
    case None =>
      var next, forced := InsertRootDefinitions(definitions, LocalDefs(v), s.inV1, types, host);
      var body := ApplyForced(Body(v), forced);
      result := Ok(next[s.name := body]);
  }

  /** `build_schema_bundle`, stopping at the first error. */
  method BuildSchemaBundle(schemas: seq<GeneratedSchema>, host: Host) returns (result: Result<Value, BundleError>)
    requires Sound(host)
    ensures result == Bundle(schemas, host)
  {
    var types := CollectNamespacedTypes(schemas);
    var definitions: map<string, Value> := map[];
    for i := 0 to |schemas|
      invariant AddSchemas(schemas[..i], types, host) == Ok(definitions)
    {
      assert schemas[..i + 1][..i] == schemas[..i];
      var next := BundleOne(definitions, schemas[i], types, host);
      if next.Err? {
        ErrorsStick(schemas, i + 1, types, host);
        return Err(next.error);
      }
      definitions := next.value;
    }
    assert schemas[..|schemas|] == schemas;
    result := Ok(BundleRoot(definitions));
  }

  lemma {:induction false} ErrorsStick(schemas: seq<GeneratedSchema>, k: nat, types: map<string, string>, host: Host)
    requires k <= |schemas| && AddSchemas(schemas[..k], types, host).Err?
    ensures AddSchemas(schemas, types, host) == Err(AddSchemas(schemas[..k], types, host).error)
    decreases |schemas| - k
  {
    if k == |schemas| {
      assert schemas[..k] == schemas;
    } else {
      assert schemas[..k + 1][..k] == schemas[..k];
      ErrorsStick(schemas, k + 1, types, host);
    }
  }
}
