/** Pruning of experimental variants, read off the schema by paths: which array items go, and where everything else
    ends up. */
module PruneReading {
  import opened Text
  import opened Json
  import opened JsonPaths
  import opened Pruning

  // ----- which variants go -----

  ghost predicate ConstMethod(v: Value, m: string) {
    Lookup(v, ["properties", "method", "const"]) == Some(Str(m))
  }

  ghost predicate HasConstMethod(v: Value) {
    exists m :: ConstMethod(v, m)
  }

  /** The variant names its method as a `const`, or else as the only entry of an `enum`. */
  ghost predicate OnlyFor(v: Value, m: string) {
    ConstMethod(v, m) || (!HasConstMethod(v) && Lookup(v, ["properties", "method", "enum"]) == Some(Array([Str(m)])))
  }

  lemma MethodPaths(v: Value, c: string)
    requires c in {"const", "enum"}
    ensures Lookup(v, ["properties", "method", c]) ==
      if MethodSchema(v).Some? && c in MethodSchema(v).value then Some(MethodSchema(v).value[c]) else None
  {
    ThreeKeys(v, "properties", "method", c);
    NoIndex(v, "properties");
    if v.Object? && "properties" in v.fields {
      var p := v.fields["properties"];
      NoIndex(p, "method");
      if p.Object? && "method" in p.fields {
        NoIndex(p.fields["method"], c);
      }
    }
  }

  /** An item is experimental exactly when it names one of the methods and no other. */
  lemma ExperimentalExactly(v: Value, methods: set<string>)
    ensures IsExperimental(v, methods) <==> exists m :: m in methods && OnlyFor(v, m)
  {
    MethodPaths(v, "const");
    MethodPaths(v, "enum");
    if MethodSchema(v).Some? {
      var schema := MethodSchema(v).value;
      if HasConst(schema) {
        assert ConstMethod(v, schema["const"].s);
        assert HasConstMethod(v);
      } else {
        assert !HasConstMethod(v);
        if HasEnum(schema) && |schema["enum"].items| == 1 && schema["enum"].items[0].Str? {
          assert schema["enum"].items == [Str(schema["enum"].items[0].s)];
          assert OnlyFor(v, schema["enum"].items[0].s);
        }
      }
    }
  }

  // ----- where everything ends up -----

  lemma {:induction false} IndexIsText(s: string)
    requires ArrayIndex(s).Some?
    ensures IndexText(ArrayIndex(s).value) == s
  {
    var front, last := s[..|s| - 1], s[|s| - 1];
    if |s| == 1 {
      assert front == "";
      assert Decimal(s) == last as int - '0' as int;
      assert s == [last];
    } else {
      assert front[0] == s[0];
      PositiveIndex(front);
      IndexIsText(front);
      assert Decimal(s) == 10 * Decimal(front) + (last as int - '0' as int);
      assert s == front + [last];
    }
  }

  lemma {:induction false} PositiveIndex(s: string)
    requires s != "" && AllDigits(s) && s[0] != '0'
    ensures Decimal(s) > 0
  {
    if |s| > 1 {
      PositiveIndex(s[..|s| - 1]);
    }
  }

  ghost predicate Goes(v: Value, methods: set<string>) {
    exists m :: m in methods && OnlyFor(v, m)
  }

  /** How many of the first `n` items stay. */
  ghost function Staying(items: seq<Value>, methods: set<string>, n: nat): nat
    requires n <= |items|
  {
    if n == 0 then 0 else Staying(items, methods, n - 1) + (if Goes(items[n - 1], methods) then 0 else 1)
  }

  /** Where what a path leads to is after pruning: nowhere when an array item on the way goes, and otherwise each
      index is lowered by the items before it that go. */
  ghost function Place(v: Value, path: seq<string>, methods: set<string>): Option<seq<string>>
    decreases |path|
  {
    if path == [] then Some([])
    else if Child(v, path[0]).None? then None
    else
      var rest := Place(Child(v, path[0]).value, path[1..], methods);
      if rest.None? then None
      else if v.Object? then Some([path[0]] + rest.value)
      else
        var i := ArrayIndex(path[0]).value;
        if Goes(v.items[i], methods) then None else Some([IndexText(Staying(v.items, methods, i))] + rest.value)
  }

  lemma KeptNext(items: seq<Value>, methods: set<string>, n: nat, shorter: seq<Value>, longer: seq<Value>)
    requires n < |items| && shorter == items[..n] && longer == items[..n + 1]
    ensures |Kept(longer, methods)| == |Kept(shorter, methods)| + (if IsExperimental(items[n], methods) then 0 else 1)
  {
    assert longer[..n] == shorter && longer[n] == items[n];
  }

  lemma {:induction false} StayingIsKept(items: seq<Value>, methods: set<string>, n: nat)
    requires n <= |items|
    ensures Staying(items, methods, n) == |Kept(items[..n], methods)|
  {
    if n > 0 {
      StayingIsKept(items, methods, n - 1);
      KeptNext(items, methods, n - 1, items[..n - 1], items[..n]);
      ExperimentalExactly(items[n - 1], methods);
    }
  }

  lemma {:induction false} KeptPrefix(items: seq<Value>, methods: set<string>, n: nat)
    requires n <= |items|
    ensures Kept(items[..n], methods) <= Kept(items, methods)
    decreases |items|
  {
    if n < |items| {
      var front := items[..|items| - 1];
      assert front[..n] == items[..n];
      KeptPrefix(front, methods, n);
    } else {
      assert items[..n] == items;
    }
  }

  /** An item that stays is found at the number of items staying before it. */
  lemma KeptAt(items: seq<Value>, methods: set<string>, i: nat)
    requires i < |items| && !Goes(items[i], methods)
    ensures var j := Staying(items, methods, i); j < |Kept(items, methods)| && Kept(items, methods)[j] == items[i]
  {
    StayingIsKept(items, methods, i);
    ExperimentalExactly(items[i], methods);
    var longer := items[..i + 1];
    assert longer[..i] == items[..i] && longer[i] == items[i];
    assert Kept(longer, methods) == Kept(items[..i], methods) + [items[i]];
    KeptPrefix(items, methods, i + 1);
  }

  /** And every place after pruning is that of an item that stays. */
  lemma {:induction false} KeptFrom(items: seq<Value>, methods: set<string>, j: nat) returns (i: nat)
    requires j < |Kept(items, methods)|
    ensures i < |items| && !Goes(items[i], methods) && Staying(items, methods, i) == j
  {
    var front, last := items[..|items| - 1], items[|items| - 1];
    ExperimentalExactly(last, methods);
    if j < |Kept(front, methods)| {
      i := KeptFrom(front, methods, j);
      StayingIsKept(front, methods, i);
      StayingIsKept(items, methods, i);
      assert front[..i] == items[..i];
    } else {
      i := |items| - 1;
      StayingIsKept(items, methods, i);
    }
  }

  /** What is left at a place is what was there, pruned. */
  lemma {:induction false} PlacedIsPruned(v: Value, path: seq<string>, methods: set<string>, to: seq<string>)
    requires Place(v, path, methods) == Some(to)
    ensures Lookup(v, path).Some? && Lookup(Prune(v, methods), to) == Some(Prune(Lookup(v, path).value, methods))
    decreases |path|
  {
    if path != [] {
      var child := Child(v, path[0]).value;
      var rest := Place(child, path[1..], methods).value;
      PlacedIsPruned(child, path[1..], methods, rest);
      assert to[1..] == rest;
      if v.Array? {
        var i := ArrayIndex(path[0]).value;
        KeptAt(v.items, methods, i);
        IndexReads(Staying(v.items, methods, i));
      }
    }
  }

  lemma {:induction false} PrunedWasPlaced(v: Value, to: seq<string>, methods: set<string>) returns (path: seq<string>)
    requires Lookup(Prune(v, methods), to).Some?
    ensures Place(v, path, methods) == Some(to)
    decreases |to|
  {
    if to == [] {
      path := [];
    } else if v.Object? {
      var rest := PrunedWasPlaced(v.fields[to[0]], to[1..], methods);
      path := [to[0]] + rest;
      assert path[1..] == rest && to == [to[0]] + to[1..];
    } else {
      var j := ArrayIndex(to[0]).value;
      var i := KeptFrom(v.items, methods, j);
      KeptAt(v.items, methods, i);
      var rest := PrunedWasPlaced(v.items[i], to[1..], methods);
      IndexReads(i);
      IndexIsText(to[0]);
      path := [IndexText(i)] + rest;
      assert path[1..] == rest && to == [to[0]] + to[1..];
    }
  }

  /** Pruning moves everything whose way is free of experimental items to its place, leaves it as it was where it is
      a scalar, and puts nothing anywhere else. */
  lemma PruningIsExact(v: Value, methods: set<string>, to: seq<string>)
    ensures Lookup(Prune(v, methods), to).Some? <==> exists path :: Place(v, path, methods) == Some(to)
    ensures forall path :: Place(v, path, methods) == Some(to) ==>
      && Lookup(v, path).Some?
      && (Scalar(Lookup(v, path).value) ==> Lookup(Prune(v, methods), to) == Lookup(v, path))
  {
    if Lookup(Prune(v, methods), to).Some? {
      var path := PrunedWasPlaced(v, to, methods);
    }
    forall path | Place(v, path, methods) == Some(to)
      ensures Lookup(v, path).Some? && Lookup(Prune(v, methods), to) == Some(Prune(Lookup(v, path).value, methods))
    {
      PlacedIsPruned(v, path, methods, to);
    }
  }
}
