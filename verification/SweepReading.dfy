/** Stripping of method variants, read off the schema by paths: which variants go, in which order the others stay,
    and which definitions are kept. */
module SweepReading {
  import opened Text
  import opened Json
  import opened JsonPaths
  import opened References
  import opened Reachability
  import opened MarkSweep
  import opened SweepMeaning

  // ----- variants -----

  /** The keys lead through objects to this value. */
  predicate Has(v: Value, keys: seq<string>, x: Value) {
    Lookup(v, keys) == Some(x)
  }

  ghost predicate ConstMethod(v: Value, m: string) {
    Has(v, ["properties", "method", "const"], Str(m))
  }

  /** Some string is the `const` of the method. */
  ghost predicate HasConstMethod(v: Value) {
    exists m :: ConstMethod(v, m)
  }

  ghost predicate FirstOfEnum(v: Value, m: string) {
    exists items: seq<Value> :: Has(v, ["properties", "method", "enum"], Array(items)) && |items| > 0 && items[0] == Str(m)
  }

  /** The method a variant is for: its `const`, or else the first entry of its `enum`. */
  ghost predicate IsFor(v: Value, m: string) {
    ConstMethod(v, m) || (!HasConstMethod(v) && FirstOfEnum(v, m))
  }

  /** What the `const` and the `enum` of the method hold, step by step. */
  lemma MethodPaths(v: Value, c: string)
    requires c in {"const", "enum"}
    ensures Lookup(v, ["properties", "method", c]) ==
      match Get(v, "properties")
      case None => None
      case Some(p) => match Get(p, "method") case None => None case Some(m) => Get(m, c)
  {
    ThreeKeys(v, "properties", "method", c);
    NoIndex(v, "properties");
    if Get(v, "properties").Some? {
      var p := Get(v, "properties").value;
      NoIndex(p, "method");
      if Get(p, "method").Some? {
        NoIndex(Get(p, "method").value, c);
      }
    }
  }

  /** The schema of the `method` property. */
  function MethodIn(v: Value): Option<Value> {
    match Get(v, "properties")
    case None => None
    case Some(p) => Get(p, "method")
  }

  lemma MethodHas(v: Value, c: string)
    requires c in {"const", "enum"}
    ensures Lookup(v, ["properties", "method", c]) == if MethodIn(v).None? then None else Get(MethodIn(v).value, c)
  {
    MethodPaths(v, c);
  }

  lemma LiteralExactly(v: Value, m: string)
    ensures IsFor(v, m) <==> MethodIn(v).Some? && StringLiteral(MethodIn(v).value) == Some(m)
  {
    MethodHas(v, "const");
    MethodHas(v, "enum");
    if MethodIn(v).Some? {
      var schema := MethodIn(v).value;
      match Get(schema, "const")
      case Some(Str(s)) => assert ConstMethod(v, s);
      case _ =>
        assert !HasConstMethod(v);
        match Get(schema, "enum")
        case Some(Array(items)) => assert Has(v, ["properties", "method", "enum"], Array(items));
        case _ =>
    }
  }

  /** A variant goes exactly when it is for one of the methods. */
  lemma VariantGoesExactly(v: Value, methods: set<string>)
    ensures IsMethodVariant(v, methods) <==> exists m :: m in methods && IsFor(v, m)
  {
    forall m ensures IsFor(v, m) <==> MethodIn(v).Some? && StringLiteral(MethodIn(v).value) == Some(m) {
      LiteralExactly(v, m);
    }
  }

  lemma OneMore(items: seq<Value>, v: Value, methods: set<string>, goes: bool)
    requires goes == IsMethodVariant(v, methods)
    ensures KeepVariants(items + [v], methods) == KeepVariants(items, methods) + (if goes then [] else [v])
  {
    assert (items + [v])[..|items|] == items;
  }

  lemma OneMoreBehind(a: seq<Value>, front: seq<Value>, last: Value, methods: set<string>, whole: seq<Value>, b: seq<Value>)
    requires KeepVariants(a + front, methods) == KeepVariants(a, methods) + KeepVariants(front, methods)
    requires whole == (a + front) + [last] && b == front + [last]
    ensures KeepVariants(whole, methods) == KeepVariants(a, methods) + KeepVariants(b, methods)
  {
    var goes := IsMethodVariant(last, methods);
    OneMore(a + front, last, methods, goes);
    OneMore(front, last, methods, goes);
    Associate(KeepVariants(a, methods), KeepVariants(front, methods), if goes then [] else [last]);
  }

  lemma LastApart<T>(a: seq<T>, b: seq<T>, front: seq<T>, last: T)
    requires b != [] && front == b[..|b| - 1] && last == b[|b| - 1]
    ensures a + b == (a + front) + [last] && b == front + [last]
  {
  }

  /** The variants that stay do so in their order: what is kept of two lists is what is kept of each. */
  lemma {:induction false} VariantsStayInOrder(a: seq<Value>, b: seq<Value>, methods: set<string>)
    ensures KeepVariants(a + b, methods) == KeepVariants(a, methods) + KeepVariants(b, methods)
  {
    if b == [] {
      assert a + b == a;
    } else {
      LastApart(a, b, b[..|b| - 1], b[|b| - 1]);
      VariantsStayInOrder(a, b[..|b| - 1], methods);
      OneMoreBehind(a, b[..|b| - 1], b[|b| - 1], methods, a + b, b);
    }
  }

  lemma OneVariant(v: Value, methods: set<string>)
    ensures KeepVariants([v], methods) == if exists m :: m in methods && IsFor(v, m) then [] else [v]
  {
    VariantGoesExactly(v, methods);
    assert [v][..0] == [];
  }

  // ----- definitions -----

  /** The reference names a local definition, perhaps something inside it. */
  predicate PointsAt(r: string, n: string) {
    '/' !in n && (r == "#/definitions/" + n || "#/definitions/" + n + "/" <= r)
  }

  lemma {:induction false} FirstSegmentExactly(s: string, n: string)
    ensures FirstSegment(s) == n <==> '/' !in n && (s == n || n + "/" <= s)
  {
    if '/' !in n {
      SegmentsSingle(n);
      if n + "/" <= s {
        var rest := s[|n| + 1..];
        assert s == n + "/" + rest;
        SegmentsSplit(n, rest);
      }
    }
    FirstSegmentShape(s);
  }

  lemma {:induction false} FirstSegmentShape(s: string)
    ensures '/' !in FirstSegment(s) && (s == FirstSegment(s) || FirstSegment(s) + "/" <= s)
  {
    if s != "" && s[0] != '/' {
      FirstSegmentShape(s[1..]);
      assert FirstSegment(s) == [s[0]] + FirstSegment(s[1..]);
      assert s == [s[0]] + s[1..];
    }
  }

  lemma TargetsExactly(refs: set<string>, n: string)
    ensures n in Targets(refs) <==> exists r :: r in refs && PointsAt(r, n)
  {
    forall r ensures DEFS <= r && FirstSegment(r[|DEFS|..]) == n <==> PointsAt(r, n) {
      PointsExactly(r, n, DEFS);
    }
  }

  lemma PointsExactly(r: string, n: string, defs: string)
    ensures defs <= r && FirstSegment(r[|defs|..]) == n <==> '/' !in n && (r == defs + n || defs + n + "/" <= r)
  {
    if defs <= r {
      var s := r[|defs|..];
      assert r == defs + s;
      FirstSegmentExactly(s, n);
      assert s == n <==> r == defs + n;
      assert (defs + n + "/") == defs + (n + "/");
      assert n + "/" <= s <==> defs + (n + "/") <= defs + s;
    }
  }

  /** No step of the path goes into a definition map. */
  predicate AvoidsMaps(path: seq<string>) {
    "definitions" !in path && "$defs" !in path
  }

  lemma {:induction false} OutsideHasPath(v: Value, r: string) returns (path: seq<string>)
    requires r in OutsideMaps(v)
    ensures RefAt(v, path, r) && AvoidsMaps(path)
  {
    match v
    case Array(items) =>
      var i :| 0 <= i < |items| && r in OutsideMaps(items[i]);
      var rest := OutsideHasPath(items[i], r);
      IndexReads(i);
      path := [IndexText(i)] + rest;
      assert path[1..] == rest;
      IndexTextReads(i);
      assert "definitions"[0] == 'd' && "$defs"[0] == '$';
    case Object(fields) =>
      if HoldsRef(fields) && r == fields[REF_KEY].s {
        path := [];
      } else {
        var k :| k in fields && k !in MAP_KEYS && r in OutsideMaps(fields[k]);
        var rest := OutsideHasPath(fields[k], r);
        path := [k] + rest;
        assert path[1..] == rest;
      }
  }

  lemma {:induction false} PathIsOutside(v: Value, path: seq<string>, r: string)
    requires RefAt(v, path, r) && AvoidsMaps(path)
    ensures r in OutsideMaps(v)
    decreases |path|
  {
    if path != [] {
      var child, rest := Child(v, path[0]).value, path[1..];
      assert forall s :: s in rest ==> s in path;
      PathIsOutside(child, rest, r);
      assert path[0] in path;
    }
  }

  /** The references the marking starts from are those that a path around all definition maps leads to. */
  lemma OutsideAreAtPaths(v: Value, r: string)
    ensures r in OutsideMaps(v) <==> exists path :: RefAt(v, path, r) && AvoidsMaps(path)
  {
    if r in OutsideMaps(v) {
      var path := OutsideHasPath(v, r);
    }
    forall path | RefAt(v, path, r) && AvoidsMaps(path) ensures r in OutsideMaps(v) {
      PathIsOutside(v, path, r);
    }
  }

  /** A path around the definition maps leads to a reference to the definition. */
  ghost predicate Calls(v: Value, n: string) {
    exists path, r :: RefAt(v, path, r) && AvoidsMaps(path) && PointsAt(r, n)
  }

  /** Some path of the definition leads to a reference to another. */
  ghost predicate Needs(d: map<string, Value>, n: string, m: string) {
    n in d && exists path, r :: RefAt(d[n], path, r) && PointsAt(r, m)
  }

  ghost predicate Chain(d: map<string, Value>, chain: seq<string>) {
    forall i :: 0 <= i < |chain| - 1 ==> Needs(d, chain[i], chain[i + 1])
  }

  /** A chain of references leads to the definition from somewhere outside the maps. */
  ghost predicate Wanted(v: Value, d: map<string, Value>, n: string) {
    exists chain :: |chain| > 0 && Calls(v, chain[0]) && chain[|chain| - 1] == n && Chain(d, chain)
  }

  lemma CallsExactly(v: Value, n: string)
    ensures Calls(v, n) <==> n in Targets(OutsideMaps(v))
  {
    TargetsExactly(OutsideMaps(v), n);
    forall r ensures r in OutsideMaps(v) <==> exists path :: RefAt(v, path, r) && AvoidsMaps(path) {
      OutsideAreAtPaths(v, r);
    }
  }

  lemma NeedsExactly(d: map<string, Value>, n: string, m: string)
    ensures Needs(d, n, m) <==> m in Uses(d)(n)
  {
    if n in d {
      TargetsExactly(Refs(d[n]), m);
      forall r ensures r in Refs(d[n]) <==> exists path :: RefAt(d[n], path, r) {
        RefsAreAtPaths(d[n], r);
      }
    }
  }

  lemma ChainsArePaths(d: map<string, Value>, chain: seq<string>)
    requires |chain| > 0
    ensures Chain(d, chain) <==> IsPath(Uses(d), chain)
  {
    forall i | 0 <= i < |chain| - 1 ensures Needs(d, chain[i], chain[i + 1]) <==> chain[i + 1] in Uses(d)(chain[i]) {
      NeedsExactly(d, chain[i], chain[i + 1]);
    }
  }

  lemma WantedExactly(v: Value, d: map<string, Value>, n: string, start: set<string>)
    requires start == Targets(OutsideMaps(v))
    ensures Wanted(v, d, n) <==> Reachable(Uses(d), start, n)
  {
    if Wanted(v, d, n) {
      var chain :| |chain| > 0 && Calls(v, chain[0]) && chain[|chain| - 1] == n && Chain(d, chain);
      CallsExactly(v, chain[0]);
      ChainsArePaths(d, chain);
    }
    if Reachable(Uses(d), start, n) {
      var path :| IsPath(Uses(d), path) && path[0] in start && path[|path| - 1] == n;
      CallsExactly(v, path[0]);
      ChainsArePaths(d, path);
    }
  }

  /** The whole operation on a schema with variants: the variants for the methods go, a definition stays, unchanged,
      exactly when a chain of references from what is left outside the maps leads to it, and nothing else changes. */
  lemma StrippedReads(v: Value, methods: set<string>, out: Value)
    requires HasVariants(v) && out == Strip(v, methods)
    ensures out.Object? && out.fields.Keys == v.fields.Keys
    ensures out.fields["oneOf"] == Array(KeepVariants(v.fields["oneOf"].items, methods))
    ensures forall k :: k in v.fields && k != "oneOf" && k != "definitions" ==> out.fields[k] == v.fields[k]
    ensures "definitions" in v.fields && !v.fields["definitions"].Object? ==> out.fields["definitions"] == v.fields["definitions"]
    ensures "definitions" in v.fields && v.fields["definitions"].Object? ==>
      var d := v.fields["definitions"].fields;
      && out.fields["definitions"].Object?
      && forall n :: Get(out.fields["definitions"], n) == if n in d && Wanted(out, d, n) then Some(d[n]) else None
  {
    if Definitions(v).Some? {
      var d := Definitions(v).value;
      SweepIsExact(v, methods, d);
      var kept := Definitions(out).value;
      forall n ensures Get(out.fields["definitions"], n) == if n in d && Wanted(out, d, n) then Some(d[n]) else None {
        WantedExactly(out, d, n, Targets(OutsideMaps(out)));
      }
    }
  }
}
