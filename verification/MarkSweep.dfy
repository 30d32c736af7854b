/** Stripping of method variants and the mark-and-sweep over local definitions that follows it
    (codex-rs/app-server-protocol/src/export.rs:1394-1514, 1698-1706). */
module MarkSweep {
  import opened Text
  import opened Json
  import opened References
  import opened Reachability

  /** Keys whose maps the marking phase does not look into. */
  const MAP_KEYS: set<string> := {"definitions", "$defs"}

  // ----- variants -----

  function Get(v: Value, key: string): Option<Value> {
    if v.Object? && key in v.fields then Some(v.fields[key]) else None
  }

  /** `string_literal`: a `const` string, or else the first entry of an `enum` if it is a string. */
  function StringLiteral(v: Value): Option<string> {
    match Get(v, "const")
    case Some(Str(s)) => Some(s)
    case _ =>
      match Get(v, "enum")
      case Some(Array(items)) => if |items| > 0 && items[0].Str? then Some(items[0].s) else None
      case _ => None
  }

  /** `is_method_variant_in_set` */
  predicate IsMethodVariant(v: Value, methods: set<string>) {
    match Get(v, "properties")
    case Some(Object(properties)) =>
      "method" in properties && StringLiteral(properties["method"]).Some?
      && StringLiteral(properties["method"]).value in methods
    case _ => false
  }

  function KeepVariants(items: seq<Value>, methods: set<string>): (kept: seq<Value>)
    ensures forall v :: v in kept <==> v in items && !IsMethodVariant(v, methods)
  {
    if items == [] then []
    else
      var rest := KeepVariants(items[..|items| - 1], methods);
      var last := items[|items| - 1];
      if IsMethodVariant(last, methods) then rest else rest + [last]
  }

  // ----- marking -----

  /** The local definition names a set of references points at. */
  function Targets(refs: set<string>): set<string> {
    set r | r in refs && DEFS <= r :: FirstSegment(r[|DEFS|..])
  }

  /** References outside definition maps, at any depth. */
  function OutsideMaps(v: Value): set<string> {
    match v
    case Array(items) => set i, r | 0 <= i < |items| && r in OutsideMaps(items[i]) :: r
    case Object(fields) =>
      (if HoldsRef(fields) then {fields[REF_KEY].s} else {})
      + (set k, r | k in fields && k !in MAP_KEYS && r in OutsideMaps(fields[k]) :: r)
    case _ => {}
  }

  function Uses(definitions: map<string, Value>): Graph {
    n => if n in definitions then Targets(Refs(definitions[n])) else {}
  }

  function Definitions(v: Value): Option<map<string, Value>> {
    match Get(v, "definitions")
    case Some(Object(d)) => Some(d)
    case _ => None
  }

  ghost function Universe(definitions: map<string, Value>, start: set<string>): (u: set<string>)
    ensures start <= u && Closed(Uses(definitions), u)
  {
    start + (set n, m | n in definitions && m in Targets(Refs(definitions[n])) :: m)
  }

  /** Definitions reachable from references outside the definition maps. */
  ghost function Marked(v: Value, definitions: map<string, Value>): (names: set<string>)
    ensures IsReachableSet(Uses(definitions), Targets(OutsideMaps(v)), names)
  {
    var start := Targets(OutsideMaps(v));
    ReachableSet(Uses(definitions), start, Universe(definitions, start))
  }

  // ----- the whole operation -----

  function Swept(definitions: map<string, Value>, names: set<string>): map<string, Value> {
    map n | n in definitions && n in names :: definitions[n]
  }

  ghost function Sweep(v: Value): Value
    requires v.Object?
  {
    match Definitions(v)
    case Some(d) => Object(v.fields["definitions" := Object(Swept(d, Marked(v, d)))])
    case None => v
  }

  predicate HasVariants(v: Value) {
    v.Object? && "oneOf" in v.fields && v.fields["oneOf"].Array?
  }

  function DropVariants(v: Value, methods: set<string>): Value
    requires HasVariants(v)
  {
    Object(v.fields["oneOf" := Array(KeepVariants(v.fields["oneOf"].items, methods))])
  }

  /** What `strip_method_variants_from_json_schema` leaves. */
  ghost function Strip(v: Value, methods: set<string>): Value {
    if HasVariants(v) then Sweep(DropVariants(v, methods)) else v
  }

  // ----- the loops -----

  function RefHere(v: Value): set<string> {
    if v.Object? && HoldsRef(v.fields) then {v.fields[REF_KEY].s} else {}
  }

  /** The effect of collecting `names`: new ones are marked and queued, the rest changes nothing. */
  ghost predicate Grown(queue: seq<string>, reachable: set<string>, queue': seq<string>, reachable': set<string>, names: set<string>) {
    && reachable' == reachable + names
    && Elements(queue') == Elements(queue) + (reachable' - reachable)
    && (reachable' == reachable ==> queue' == queue)
  }

  lemma GrownTwice(q0: seq<string>, r0: set<string>, q1: seq<string>, r1: set<string>, q2: seq<string>, r2: set<string>,
                   first: set<string>, second: set<string>)
    requires Grown(q0, r0, q1, r1, Targets(first)) && Grown(q1, r1, q2, r2, Targets(second))
    ensures Grown(q0, r0, q2, r2, Targets(first + second))
  {
    assert Targets(first + second) == Targets(first) + Targets(second);
    assert r2 == r0 ==> r1 == r0;
  }

  /** `collect_local_definition_ref_here` */
  method MarkHere(v: Value, queue: seq<string>, reachable: set<string>)
    returns (queue': seq<string>, reachable': set<string>)
    ensures Grown(queue, reachable, queue', reachable', Targets(RefHere(v)))
  {
    queue', reachable' := queue, reachable;
    if v.Object? && HoldsRef(v.fields) {
      var r := v.fields[REF_KEY].s;
      assert Targets({r}) == if DEFS <= r then {FirstSegment(r[|DEFS|..])} else {};
      if DEFS <= r {
        var name := FirstSegment(r[|DEFS|..]);
        if name !in reachable {
          reachable' := reachable + {name};
          ElementsPush(queue, name);
          queue' := queue + [name];
        }
      }
    }
  }

  function RefsUnder(fields: map<string, Value>, keys: set<string>): set<string> {
    set k, r | k in keys && k in fields && r in Refs(fields[k]) :: r
  }

  function RefsUpTo(items: seq<Value>, n: nat): set<string>
    requires n <= |items|
  {
    set i, r | 0 <= i < n && r in Refs(items[i]) :: r
  }

  lemma RefsUnderStep(fields: map<string, Value>, keys: set<string>, k: string)
    requires k in fields
    ensures RefsUnder(fields, keys + {k}) == RefsUnder(fields, keys) + Refs(fields[k])
  {
  }

  lemma RefsUpToStep(items: seq<Value>, n: nat)
    requires n < |items|
    ensures RefsUpTo(items, n) + Refs(items[n]) == RefsUpTo(items, n + 1)
  {
  }

  /** `collect_local_definition_refs` */
  method Mark(v: Value, queue: seq<string>, reachable: set<string>)
    returns (queue': seq<string>, reachable': set<string>)
    ensures Grown(queue, reachable, queue', reachable', Targets(Refs(v)))
    decreases v, 1
  {
    var q, r := MarkHere(v, queue, reachable);
    queue', reachable' := q, r;
    if v.Object? {
      queue', reachable' := MarkFields(v, q, r);
      GrownTwice(queue, reachable, q, r, queue', reachable', RefHere(v), RefsUnder(v.fields, v.fields.Keys));
      assert Refs(v) == RefHere(v) + RefsUnder(v.fields, v.fields.Keys);
    } else if v.Array? {
      queue', reachable' := MarkItems(v, q, r);
      GrownTwice(queue, reachable, q, r, queue', reachable', {}, RefsUpTo(v.items, |v.items|));
      assert Refs(v) == {} + RefsUpTo(v.items, |v.items|);
    }
  }

  method MarkFields(v: Value, queue: seq<string>, reachable: set<string>)
    returns (queue': seq<string>, reachable': set<string>)
    requires v.Object?
    ensures Grown(queue, reachable, queue', reachable', Targets(RefsUnder(v.fields, v.fields.Keys)))
    decreases v, 0
  {
    queue', reachable' := queue, reachable;
    ghost var done: set<string> := {};
    var rest := v.fields.Keys;
    while rest != {}
      invariant rest + done == v.fields.Keys
      invariant Grown(queue, reachable, queue', reachable', Targets(RefsUnder(v.fields, done)))
      decreases rest
    {
      var k :| k in rest;
      var q, r := queue', reachable';
      queue', reachable' := Mark(v.fields[k], q, r);
      GrownTwice(queue, reachable, q, r, queue', reachable', RefsUnder(v.fields, done), Refs(v.fields[k]));
      RefsUnderStep(v.fields, done, k);
      rest, done := rest - {k}, done + {k};
    }
    assert done == v.fields.Keys;
  }

  method MarkItems(v: Value, queue: seq<string>, reachable: set<string>)
    returns (queue': seq<string>, reachable': set<string>)
    requires v.Array?
    ensures Grown(queue, reachable, queue', reachable', Targets(RefsUpTo(v.items, |v.items|)))
    decreases v, 0
  {
    queue', reachable' := queue, reachable;
    for i := 0 to |v.items|
      invariant Grown(queue, reachable, queue', reachable', Targets(RefsUpTo(v.items, i)))
    {
      var q, r := queue', reachable';
      queue', reachable' := Mark(v.items[i], q, r);
      GrownTwice(queue, reachable, q, r, queue', reachable', RefsUpTo(v.items, i), Refs(v.items[i]));
      RefsUpToStep(v.items, i);
    }
  }

  function OutsideUnder(fields: map<string, Value>, keys: set<string>): set<string> {
    set k, r | k in keys && k in fields && k !in MAP_KEYS && r in OutsideMaps(fields[k]) :: r
  }

  function OutsideUpTo(items: seq<Value>, n: nat): set<string>
    requires n <= |items|
  {
    set i, r | 0 <= i < n && r in OutsideMaps(items[i]) :: r
  }

  lemma OutsideUnderStep(fields: map<string, Value>, keys: set<string>, k: string)
    requires k in fields
    ensures OutsideUnder(fields, keys + {k}) ==
      OutsideUnder(fields, keys) + (if k in MAP_KEYS then {} else OutsideMaps(fields[k]))
  {
  }

  lemma OutsideUpToStep(items: seq<Value>, n: nat)
    requires n < |items|
    ensures OutsideUpTo(items, n) + OutsideMaps(items[n]) == OutsideUpTo(items, n + 1)
  {
  }

  lemma OutsideParts(v: Value)
    ensures v.Object? ==> OutsideMaps(v) == OutsideUnder(v.fields, v.fields.Keys) + RefHere(v)
    ensures v.Array? ==> OutsideMaps(v) == OutsideUpTo(v.items, |v.items|) + RefHere(v)
  {
  }

  /** `collect_local_definition_refs_excluding_maps`: children first, then the node itself. */
  method MarkOutsideMaps(v: Value, queue: seq<string>, reachable: set<string>)
    returns (queue': seq<string>, reachable': set<string>)
    ensures Grown(queue, reachable, queue', reachable', Targets(OutsideMaps(v)))
    decreases v, 1
  {
    var q, r := queue, reachable;
    ghost var below: set<string> := {};
    if v.Object? {
      q, r := MarkFieldsOutsideMaps(v, queue, reachable);
      below := OutsideUnder(v.fields, v.fields.Keys);
    } else if v.Array? {
      q, r := MarkItemsOutsideMaps(v, queue, reachable);
      below := OutsideUpTo(v.items, |v.items|);
    }
    queue', reachable' := MarkHere(v, q, r);
    GrownTwice(queue, reachable, q, r, queue', reachable', below, RefHere(v));
    OutsideParts(v);
  }

  method MarkFieldsOutsideMaps(v: Value, queue: seq<string>, reachable: set<string>)
    returns (queue': seq<string>, reachable': set<string>)
    requires v.Object?
    ensures Grown(queue, reachable, queue', reachable', Targets(OutsideUnder(v.fields, v.fields.Keys)))
    decreases v, 0
  {
    queue', reachable' := queue, reachable;
    ghost var done: set<string> := {};
    var rest := v.fields.Keys;
    while rest != {}
      invariant rest + done == v.fields.Keys
      invariant Grown(queue, reachable, queue', reachable', Targets(OutsideUnder(v.fields, done)))
      decreases rest
    {
      var k :| k in rest;
      OutsideUnderStep(v.fields, done, k);
      if k !in MAP_KEYS {
        var q, r := queue', reachable';
        queue', reachable' := MarkOutsideMaps(v.fields[k], q, r);
        GrownTwice(queue, reachable, q, r, queue', reachable', OutsideUnder(v.fields, done), OutsideMaps(v.fields[k]));
      } else {
        assert OutsideUnder(v.fields, done + {k}) == OutsideUnder(v.fields, done);
      }
      rest, done := rest - {k}, done + {k};
    }
    assert done == v.fields.Keys;
  }

  method MarkItemsOutsideMaps(v: Value, queue: seq<string>, reachable: set<string>)
    returns (queue': seq<string>, reachable': set<string>)
    requires v.Array?
    ensures Grown(queue, reachable, queue', reachable', Targets(OutsideUpTo(v.items, |v.items|)))
    decreases v, 0
  {
    queue', reachable' := queue, reachable;
    for i := 0 to |v.items|
      invariant Grown(queue, reachable, queue', reachable', Targets(OutsideUpTo(v.items, i)))
    {
      var q, r := queue', reachable';
      queue', reachable' := MarkOutsideMaps(v.items[i], q, r);
      GrownTwice(queue, reachable, q, r, queue', reachable', OutsideUpTo(v.items, i), OutsideMaps(v.items[i]));
      OutsideUpToStep(v.items, i);
    }
  }

  lemma BoundedBy(definitions: map<string, Value>, start: set<string>) returns (universe: set<string>)
    ensures start <= universe && Closed(Uses(definitions), universe)
  {
    universe := Universe(definitions, start);
  }

  /** What the marking loop keeps. */
  ghost predicate Marking(succ: Graph, start: set<string>, queue: set<string>, reachable: set<string>) {
    && start <= reachable && queue <= reachable
    && (forall n :: n in reachable ==> Reachable(succ, start, n))
    && (forall n :: n in reachable && n !in queue ==> succ(n) <= reachable)
  }

  lemma MarkingInit(succ: Graph, start: set<string>, queue: set<string>, reachable: set<string>)
    requires reachable == {} + start && queue == {} + (reachable - {})
    ensures Marking(succ, start, queue, reachable)
  {
    forall n | n in start ensures Reachable(succ, start, n) {
      StartReachable(succ, start, n);
    }
  }

  lemma MarkingStep(succ: Graph, start: set<string>, name: string, rest: set<string>, reachable: set<string>)
    requires Marking(succ, start, rest + {name}, reachable)
    ensures Marking(succ, start, rest + (succ(name) - reachable), reachable + succ(name))
  {
    forall m | m in succ(name) ensures Reachable(succ, start, m) {
      StepReachable(succ, start, name, m);
    }
  }

  lemma NewlyMarked(universe: set<string>, before: set<string>, names: set<string>, after: set<string>)
    requires before <= universe && names <= universe && after == before + names
    ensures after - before == names - before
    ensures after == before || universe - after < universe - before
  {
    if after != before {
      var n :| n in names && n !in before;
      assert n in universe - before && n !in universe - after;
    }
  }

  lemma MarkingDone(succ: Graph, start: set<string>, reachable: set<string>)
    requires Marking(succ, start, {}, reachable)
    ensures IsReachableSet(succ, start, reachable)
  {
    ReachableInside(succ, start, reachable);
  }

  /** Collects what one popped name needs; a name without a definition needs nothing. */
  method Visit(definitions: map<string, Value>, name: string, queue: seq<string>, reachable: set<string>)
    returns (queue': seq<string>, reachable': set<string>)
    ensures Grown(queue, reachable, queue', reachable', Uses(definitions)(name))
  {
    queue', reachable' := queue, reachable;
    if name in definitions {
      queue', reachable' := Mark(definitions[name], queue, reachable);
    }
  }

  /** One turn of the marking loop. */
  method VisitLast(definitions: map<string, Value>, queue: seq<string>, reachable: set<string>, ghost start: set<string>,
    ghost universe: set<string>) returns (queue': seq<string>, reachable': set<string>)
    requires queue != [] && reachable <= universe && Closed(Uses(definitions), universe)
    requires Marking(Uses(definitions), start, Elements(queue), reachable)
    ensures reachable' <= universe && Marking(Uses(definitions), start, Elements(queue'), reachable')
    ensures universe - reachable' < universe - reachable || (reachable' == reachable && |queue'| < |queue|)
  {
    var name := queue[|queue| - 1];
    ElementsPop(queue);
    var rest := queue[..|queue| - 1];
    MarkingStep(Uses(definitions), start, name, Elements(rest), reachable);
    queue', reachable' := Visit(definitions, name, rest, reachable);
    NewlyMarked(universe, reachable, Uses(definitions)(name), reachable');
  }

  /** `reachable_local_definitions` on a schema that has a definition map: the loop stops, and the
      marked names are exactly the reachable ones. */
  method ReachableLocalDefinitions(v: Value, definitions: map<string, Value>) returns (reachable: set<string>)
    ensures IsReachableSet(Uses(definitions), Targets(OutsideMaps(v)), reachable)
  {
    ghost var succ := Uses(definitions);
    ghost var start := Targets(OutsideMaps(v));
    ghost var universe := BoundedBy(definitions, start);
    var queue: seq<string>;
    queue, reachable := MarkOutsideMaps(v, [], {});
    MarkingInit(succ, start, Elements(queue), reachable);
    while queue != []
      invariant reachable <= universe
      invariant Marking(succ, start, Elements(queue), reachable)
      decreases universe - reachable, |queue|
    {
      queue, reachable := VisitLast(definitions, queue, reachable, start, universe);
    }
    assert Elements(queue) == {};
    MarkingDone(succ, start, reachable);
  }

  method DropMethodVariants(items: seq<Value>, methods: set<string>) returns (kept: seq<Value>)
    ensures kept == KeepVariants(items, methods)
  {
    kept := [];
    for i := 0 to |items|
      invariant kept == KeepVariants(items[..i], methods)
    {
      assert items[..i + 1][..i] == items[..i];
      if !IsMethodVariant(items[i], methods) {
        kept := kept + [items[i]];
      }
    }
    assert items[..|items|] == items;
  }

  /** `strip_method_variants_from_json_schema` */
  method StripMethodVariants(v: Value, methods: set<string>) returns (stripped: Value)
    ensures stripped == Strip(v, methods)
  {
    if !HasVariants(v) {
      return v;
    }
    var kept := DropMethodVariants(v.fields["oneOf"].items, methods);
    stripped := Object(v.fields["oneOf" := Array(kept)]);
    match Definitions(stripped)
    case Some(d) =>
      var reachable := ReachableLocalDefinitions(stripped, d);
      assert reachable == Marked(stripped, d);
      stripped := Object(stripped.fields["definitions" := Object(Swept(d, reachable))]);
    case None =>
  }
}
