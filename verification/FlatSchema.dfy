/** Flattening of the `v2` namespace: `build_flat_v2_schema` and the dependency worklist it uses
    (codex-rs/app-server-protocol/src/export.rs:1076-1278). */
module FlatSchema {
  import opened Text
  import opened Json
  import opened References
  import opened Reachability

  /** `FLAT_V2_SHARED_DEFINITIONS` */
  const SHARED := ["ClientRequest", "ServerNotification"]

  datatype FlatError =
    | RootNotObject
    | NoDefinitions
    | NoV2Namespace
    | StillNamespaced
    | MissingDefinitions(names: set<string>)

  /** `collect_non_v2_refs` */
  function NonV2Names(v: Value): set<string> {
    set r | r in Refs(v) && DEFS <= r && !(V2_DEFS <= r) :: r[|DEFS|..]
  }

  /** Which root names a root definition needs; names without a definition need nothing. */
  function Dependents(definitions: map<string, Value>): Graph {
    n => if n in definitions then NonV2Names(definitions[n]) else {}
  }

  ghost function Universe(definitions: map<string, Value>, start: set<string>): (u: set<string>)
    ensures start <= u && Closed(Dependents(definitions), u)
  {
    start + (set n, m | n in definitions && m in NonV2Names(definitions[n]) :: m)
  }

  lemma BoundedBy(definitions: map<string, Value>, start: set<string>) returns (universe: set<string>)
    ensures start <= universe && Closed(Dependents(definitions), universe)
  {
    universe := Universe(definitions, start);
  }

  /** A hash set's elements in whatever order it yields them. */
  method ToSequence(names: set<string>) returns (listed: seq<string>)
    ensures Elements(listed) == names
  {
    listed := [];
    var rest := names;
    while rest != {}
      invariant rest <= names && Elements(listed) == names - rest
      decreases rest
    {
      var n :| n in rest;
      rest := rest - {n};
      ElementsPush(listed, n);
      listed := listed + [n];
    }
  }

  /** The body of the worklist loop after a new name was marked as seen. */
  method PushUnseen(definitions: map<string, Value>, toProcess: seq<string>, seen: set<string>, name: string)
    returns (pushed: seq<string>)
    ensures Elements(pushed) == Elements(toProcess) + (Dependents(definitions)(name) - seen)
  {
    pushed := toProcess;
    if name !in definitions {
      return;
    }
    var deps := NonV2Names(definitions[name]);
    var rest := deps;
    while rest != {}
      invariant rest <= deps && Elements(pushed) == Elements(toProcess) + (deps - rest - seen)
      decreases rest
    {
      var dep :| dep in rest;
      rest := rest - {dep};
      if dep !in seen {
        ElementsPush(pushed, dep);
        pushed := pushed + [dep];
      }
    }
  }

  /** `collect_definition_dependencies`: the worklist stops, and what it has seen is exactly
      what is reachable, whatever the order of the names, cycles or duplicate entries. */
  method CollectDefinitionDependencies(definitions: map<string, Value>, names: set<string>)
    returns (seen: set<string>)
    ensures IsReachableSet(Dependents(definitions), names, seen)
  {
    ghost var succ := Dependents(definitions);
    ghost var universe := BoundedBy(definitions, names);
    seen := {};
    var toProcess := ToSequence(names);
    FrontierInit(succ, names);
    while |toProcess| > 0
      invariant seen <= universe && Elements(toProcess) <= universe
      invariant Frontier(succ, names, seen, Elements(toProcess))
      decreases universe - seen, |toProcess|
    {
      var name := toProcess[|toProcess| - 1];
      ElementsPop(toProcess);
      toProcess := toProcess[..|toProcess| - 1];
      ghost var rest := Elements(toProcess);
      if name in seen {
        FrontierSkip(succ, names, seen, rest, name);
        continue;
      }
      FrontierVisit(succ, names, seen, rest, name);
      seen := seen + {name};
      toProcess := PushUnseen(definitions, toProcess, seen, name);
    }
    assert Elements(toProcess) == {};
    FrontierDone(succ, names, seen);
  }

  function SharedNames(definitions: map<string, Value>): set<string> {
    set n | n in SHARED && n in definitions
  }

  function SharedRefs(definitions: map<string, Value>): set<string> {
    set s, n | s in SHARED && s in definitions && n in NonV2Names(definitions[s]) :: n
  }

  /** The root names the shared definitions need, directly or not. */
  ghost function Pulled(definitions: map<string, Value>): (names: set<string>)
    ensures IsReachableSet(Dependents(definitions), SharedRefs(definitions), names)
  {
    ReachableSet(Dependents(definitions), SharedRefs(definitions),
                 Universe(definitions, SharedRefs(definitions)))
  }

  /** The flat definition map: v2 first, then pulled-in root names, then the shared ones on top. */
  function FlatDefinitions(definitions: map<string, Value>, v2: map<string, Value>, pulled: set<string>)
    : map<string, Value>
  {
    v2
    + (map n | n in pulled && n in definitions && n != "v2" && n !in v2 :: definitions[n])
    + (map n | n in SharedNames(definitions) :: definitions[n])
  }

  function FlatTitle(root: map<string, Value>): string {
    (if "title" in root && root["title"].Str? then root["title"].s else "CodexAppServerProtocol") + "V2"
  }

  /** The flat document before its references are rewritten. */
  function Unrewritten(root: map<string, Value>, flat: map<string, Value>): map<string, Value> {
    root["title" := Str(FlatTitle(root))]["definitions" := Object(flat)]
  }

  /** `collect_missing_definitions` */
  function MissingNames(document: Value, definitions: map<string, Value>): set<string> {
    set r | r in Refs(document) && DEFS <= r && FirstSegment(r[|DEFS|..]) !in definitions
      :: FirstSegment(r[|DEFS|..])
  }

  /** The two checks `ensure_no_ref_prefix` and `ensure_referenced_definitions_present`. */
  function Checked(flat: Value): Result<Value, FlatError> {
    if exists r :: r in Refs(flat) && V2_DEFS <= r then Err(StillNamespaced)
    else if !(flat.Object? && "definitions" in flat.fields && flat.fields["definitions"].Object?) then
      Err(NoDefinitions)
    else
      var missing := MissingNames(flat, flat.fields["definitions"].fields);
      if missing == {} then Ok(flat) else Err(MissingDefinitions(missing))
  }

  /** What `build_flat_v2_schema` returns. */
  ghost function FlatV2(bundle: Value): Result<Value, FlatError> {
    if !bundle.Object? then Err(RootNotObject)
    else
      var root := bundle.fields;
      if !("definitions" in root && root["definitions"].Object?) then Err(NoDefinitions)
      else
        var definitions := root["definitions"].fields;
        if !("v2" in definitions && definitions["v2"].Object?) then Err(NoV2Namespace)
        else
          var flat := FlatDefinitions(definitions, definitions["v2"].fields, Pulled(definitions));
          Checked(MapRefs(Object(Unrewritten(root, flat)), Flatten))
  }

  /** The first loop of `build_flat_v2_schema`. */
  method CollectShared(definitions: map<string, Value>)
    returns (shared: map<string, Value>, nonV2: set<string>)
    ensures shared == map n | n in SharedNames(definitions) :: definitions[n]
    ensures nonV2 == SharedRefs(definitions)
  {
    shared := map[];
    nonV2 := {};
    for i := 0 to |SHARED|
      invariant forall n :: n in shared <==> n in SHARED[..i] && n in definitions
      invariant forall n :: n in shared ==> shared[n] == definitions[n]
      invariant nonV2 == set s, n | s in SHARED[..i] && s in definitions && n in NonV2Names(definitions[s]) :: n
    {
      assert SHARED[..i + 1] == SHARED[..i] + [SHARED[i]];
      if SHARED[i] in definitions {
        nonV2 := nonV2 + NonV2Names(definitions[SHARED[i]]);
        shared := shared[SHARED[i] := definitions[SHARED[i]]];
      }
    }
    assert SHARED[..|SHARED|] == SHARED;
  }

  /** The second loop of `build_flat_v2_schema`. */
  method AddPulled(definitions: map<string, Value>, v2: map<string, Value>, names: set<string>)
    returns (flat: map<string, Value>)
    ensures flat == v2 + (map n | n in names && n in definitions && n != "v2" && n !in v2 :: definitions[n])
  {
    flat := v2;
    var todo := names;
    while todo != {}
      invariant todo <= names
      invariant flat == v2 + (map n | n in names - todo && n in definitions && n != "v2" && n !in v2 :: definitions[n])
      decreases todo
    {
      var name :| name in todo;
      todo := todo - {name};
      if name == "v2" || name in flat {
        continue;
      }
      if name in definitions {
        flat := flat[name := definitions[name]];
      }
    }
    assert names - todo == names;
  }

  /** `build_flat_v2_schema`, with its loops. */
  method BuildFlatV2Schema(bundle: Value) returns (result: Result<Value, FlatError>)
    ensures result == FlatV2(bundle)
  {
    if !bundle.Object? {
      return Err(RootNotObject);
    }
    var root := bundle.fields;
    if !("definitions" in root && root["definitions"].Object?) {
      return Err(NoDefinitions);
    }
    var definitions := root["definitions"].fields;
    if !("v2" in definitions && definitions["v2"].Object?) {
      return Err(NoV2Namespace);
    }
    var v2 := definitions["v2"].fields;
    var shared, nonV2 := CollectShared(definitions);
    var names := CollectDefinitionDependencies(definitions, nonV2);
    assert names == Pulled(definitions);
    var flat := AddPulled(definitions, v2, names);
    flat := flat + shared;
    assert flat == FlatDefinitions(definitions, v2, Pulled(definitions));
    result := Checked(MapRefs(Object(Unrewritten(root, flat)), Flatten));
  }
}
