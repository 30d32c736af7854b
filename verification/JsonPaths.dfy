/** References and their rewriting, read off the paths of a document. */
module JsonPaths {
  import opened Text
  import opened Json

  // ----- array indices as path segments -----

  function DigitText(d: nat): string
    requires d < 10
  {
    [('0' as int + d) as char]
  }

  function IndexText(n: nat): string {
    if n < 10 then DigitText(n) else IndexText(n / 10) + DigitText(n % 10)
  }

  lemma {:induction false} IndexTextReads(n: nat)
    ensures IndexText(n) != "" && AllDigits(IndexText(n)) && Decimal(IndexText(n)) == n
    ensures IndexText(n)[0] != '0' || n == 0
  {
    if n < 10 {
      assert IndexText(n)[..0] == "";
    } else {
      var front, last := IndexText(n / 10), DigitText(n % 10);
      IndexTextReads(n / 10);
      assert (front + last)[..|front + last| - 1] == front;
    }
  }

  lemma IndexReads(n: nat)
    ensures ArrayIndex(IndexText(n)) == Some(n)
  {
    IndexTextReads(n);
  }

  // ----- short paths -----

  lemma OneKey(v: Value, c: string)
    ensures Lookup(v, [c]) == Child(v, c)
  {
    assert [c][1..] == [];
    if Child(v, c).Some? {
      assert Lookup(Child(v, c).value, []) == Child(v, c);
    }
  }

  lemma TwoKeys(v: Value, b: string, c: string)
    ensures Lookup(v, [b, c]) == if Child(v, b).None? then None else Child(Child(v, b).value, c)
  {
    assert [b, c][1..] == [c];
    if Child(v, b).Some? {
      OneKey(Child(v, b).value, c);
    }
  }

  lemma ThreeKeys(v: Value, a: string, b: string, c: string)
    ensures Lookup(v, [a, b, c]) ==
      if Child(v, a).None? then None
      else if Child(Child(v, a).value, b).None? then None
      else Child(Child(Child(v, a).value, b).value, c)
  {
    assert [a, b, c][1..] == [b, c];
    if Child(v, a).Some? {
      TwoKeys(Child(v, a).value, b, c);
    }
  }

  /** A key that starts with no digit leads only into objects. */
  lemma NoIndex(v: Value, key: string)
    requires key != "" && !('0' <= key[0] <= '9')
    ensures Child(v, key) == if v.Object? && key in v.fields then Some(v.fields[key]) else None
  {
  }

  // ----- references -----

  /** The path leads to an object that has this string under `$ref`. */
  predicate RefAt(v: Value, path: seq<string>, r: string) {
    var at := Lookup(v, path);
    at.Some? && at.value.Object? && "$ref" in at.value.fields && at.value.fields["$ref"] == Str(r)
  }

  lemma {:induction false} RefHasPath(v: Value, r: string) returns (path: seq<string>)
    requires r in Refs(v)
    ensures RefAt(v, path, r)
  {
    match v
    case Array(items) =>
      var i :| 0 <= i < |items| && r in Refs(items[i]);
      var rest := RefHasPath(items[i], r);
      IndexReads(i);
      path := [IndexText(i)] + rest;
      assert path[1..] == rest;
    case Object(fields) =>
      if HoldsRef(fields) && r == fields[REF_KEY].s {
        path := [];
      } else {
        var k :| k in fields && r in Refs(fields[k]);
        var rest := RefHasPath(fields[k], r);
        path := [k] + rest;
        assert path[1..] == rest;
      }
  }

  lemma {:induction false} PathHasRef(v: Value, path: seq<string>, r: string)
    requires RefAt(v, path, r)
    ensures r in Refs(v)
    decreases |path|
  {
    if path != [] {
      PathHasRef(Child(v, path[0]).value, path[1..], r);
    }
  }

  /** The references of a document are the strings under `$ref` keys that some path leads to. */
  lemma RefsAreAtPaths(v: Value, r: string)
    ensures r in Refs(v) <==> exists path :: RefAt(v, path, r)
  {
    if r in Refs(v) {
      var path := RefHasPath(v, r);
    }
    forall path | RefAt(v, path, r) ensures r in Refs(v) {
      PathHasRef(v, path, r);
    }
  }

  // ----- rewriting -----

  predicate Scalar(v: Value) {
    !v.Array? && !v.Object?
  }

  /** The last step of the path is the `$ref` key of an object that holds a string there. */
  predicate AtRef(v: Value, path: seq<string>) {
    path != [] && path[|path| - 1] == "$ref" &&
    var at := Lookup(v, path[..|path| - 1]);
    at.Some? && at.value.Object? && "$ref" in at.value.fields && at.value.fields["$ref"].Str?
  }

  lemma {:induction false} ScalarMapped(v: Value, f: string -> string, path: seq<string>, leaf: Value)
    requires Lookup(v, path) == Some(leaf) && Scalar(leaf)
    ensures Lookup(MapRefs(v, f), path) == Some(if AtRef(v, path) && leaf.Str? then Str(f(leaf.s)) else leaf)
    decreases |path|
  {
    if path == [] {
    } else if |path| == 1 {
      OneStep(v, f, path, leaf);
    } else {
      var child, rest := Child(v, path[0]).value, path[1..];
      MappedChild(v, f, path[0]);
      assert !Scalar(child);
      ScalarMapped(child, f, rest, leaf);
      AtRefBelow(v, path, child, rest);
    }
  }

  lemma OneStep(v: Value, f: string -> string, path: seq<string>, leaf: Value)
    requires |path| == 1 && Lookup(v, path) == Some(leaf) && Scalar(leaf)
    ensures Lookup(MapRefs(v, f), path) == Some(if AtRef(v, path) && leaf.Str? then Str(f(leaf.s)) else leaf)
  {
    assert path[1..] == [] && path[..0] == [];
    MappedChild(v, f, path[0]);
  }

  lemma AtRefBelow(v: Value, path: seq<string>, child: Value, rest: seq<string>)
    requires |path| > 1 && Child(v, path[0]) == Some(child) && rest == path[1..]
    ensures AtRef(v, path) <==> AtRef(child, rest)
  {
    var above, below := path[..|path| - 1], rest[..|rest| - 1];
    assert above[0] == path[0] && above[1..] == below;
  }

  /** Rewriting changes exactly the strings under `$ref` keys: every path leads to something exactly when it did,
      and to the same scalar unless it ends at a reference. */
  lemma RewritingIsExact(v: Value, f: string -> string, path: seq<string>)
    ensures Lookup(MapRefs(v, f), path).Some? <==> Lookup(v, path).Some?
    ensures Lookup(v, path).Some? && Scalar(Lookup(v, path).value) ==>
      var leaf := Lookup(v, path).value;
      Lookup(MapRefs(v, f), path) == Some(if AtRef(v, path) && leaf.Str? then Str(f(leaf.s)) else leaf)
  {
    LookupMapped(v, f, path);
    if Lookup(v, path).Some? && Scalar(Lookup(v, path).value) {
      ScalarMapped(v, f, path, Lookup(v, path).value);
    }
  }
}
