/** JSON trees and the `$ref` strings inside them. */
module Json {
  import opened Text

  datatype Value =
    | Null
    | Bool(b: bool)
    | Number(n: int)
    | Str(s: string)
    | Array(items: seq<Value>)
    | Object(fields: map<string, Value>)

  const REF_KEY := "$ref"

  predicate HoldsRef(fields: map<string, Value>) {
    REF_KEY in fields && fields[REF_KEY].Str?
  }

  /** Every string found under a `$ref` key anywhere in the tree. */
  function Refs(v: Value): set<string> {
    match v
    case Array(items) => set i, r | 0 <= i < |items| && r in Refs(items[i]) :: r
    case Object(fields) =>
      (if HoldsRef(fields) then {fields[REF_KEY].s} else {})
      + (set k, r | k in fields && r in Refs(fields[k]) :: r)
    case _ => {}
  }

  /** The traversal all of the `rewrite_*` procedures share: apply `f` to every `$ref` string.
      The source updates the tree in place through a unique `&mut`; the result is the tree it leaves. */
  function MapRefs(v: Value, f: string -> string): Value {
    match v
    case Array(items) => Array(seq(|items|, i requires 0 <= i < |items| => MapRefs(items[i], f)))
    case Object(fields) =>
      Object(map k | k in fields ::
        if k == REF_KEY && fields[k].Str? then Str(f(fields[k].s)) else MapRefs(fields[k], f))
    case _ => v
  }

  predicate AllDigits(s: string) {
    forall i :: 0 <= i < |s| ==> '0' <= s[i] <= '9'
  }

  function Decimal(s: string): nat
    requires AllDigits(s)
  {
    if s == "" then 0 else 10 * Decimal(s[..|s| - 1]) + (s[|s| - 1] as int - '0' as int)
  }

  /** The array index a path segment names (section 4 of RFC 6901): digits without a leading zero. */
  function ArrayIndex(segment: string): Option<nat> {
    if segment != "" && AllDigits(segment) && (segment[0] != '0' || segment == "0") then Some(Decimal(segment)) else None
  }

  /** One step into a value: an object's key or an array's index. */
  function Child(v: Value, segment: string): Option<Value> {
    if v.Object? then (if segment in v.fields then Some(v.fields[segment]) else None)
    else if v.Array? && ArrayIndex(segment).Some? && ArrayIndex(segment).value < |v.items|
    then Some(v.items[ArrayIndex(segment).value])
    else None
  }

  /** Walks a path, as a JSON pointer does. */
  function Lookup(v: Value, path: seq<string>): Option<Value>
    decreases |path|
  {
    if path == [] then Some(v)
    else if Child(v, path[0]).Some? then Lookup(Child(v, path[0]).value, path[1..])
    else None
  }

  /** What a local reference such as `#/definitions/v2/Thread` points at in a document
      (section 8.3 of JSON Schema draft-07 core; names need no JSON pointer escapes). */
  function Resolve(document: Value, reference: string): Option<Value> {
    if "#/" <= reference then Lookup(document, Segments(reference[2..])) else None
  }

  lemma LookupOne(fields: map<string, Value>, name: string)
    ensures Lookup(Object(fields), [name]) == if name in fields then Some(fields[name]) else None
  {
    assert [name][1..] == [];
  }

  /** A longer path goes on from where the shorter one led. */
  lemma {:induction false} LookupJoin(v: Value, a: seq<string>, b: seq<string>)
    ensures Lookup(v, a + b) == if Lookup(v, a).Some? then Lookup(Lookup(v, a).value, b) else None
    decreases |a|
  {
    if a == [] {
      assert a + b == b;
    } else {
      assert (a + b)[1..] == a[1..] + b;
      if Child(v, a[0]).Some? {
        LookupJoin(Child(v, a[0]).value, a[1..], b);
      }
    }
  }

  lemma MappedChild(v: Value, f: string -> string, segment: string)
    ensures Child(v, segment).Some? <==> Child(MapRefs(v, f), segment).Some?
    ensures Child(v, segment).Some? ==>
      Child(MapRefs(v, f), segment).value ==
        (if v.Object? && segment == REF_KEY && v.fields[segment].Str? then Str(f(v.fields[segment].s))
         else MapRefs(Child(v, segment).value, f))
  {
  }

  /** Rewriting references leaves every path where it was. */
  lemma {:induction false} LookupMapped(v: Value, f: string -> string, path: seq<string>)
    ensures Lookup(v, path).Some? <==> Lookup(MapRefs(v, f), path).Some?
    decreases |path|
  {
    if path != [] {
      MappedChild(v, f, path[0]);
      if Child(v, path[0]).Some? {
        var child, child' := Child(v, path[0]).value, Child(MapRefs(v, f), path[0]).value;
        if child' == MapRefs(child, f) {
          LookupMapped(child, f, path[1..]);
        } else {
          assert child.Str? && child'.Str?;
        }
      }
    }
  }

  /** The references an entry of an object accounts for. */
  function EntryRefs(key: string, v: Value): set<string> {
    Refs(v) + (if key == REF_KEY && v.Str? then {v.s} else {})
  }

  lemma RefsByEntry(fields: map<string, Value>, r: string)
    ensures r in Refs(Object(fields)) <==> exists k :: k in fields && r in EntryRefs(k, fields[k])
  {
    if HoldsRef(fields) && r == fields[REF_KEY].s {
      assert r in EntryRefs(REF_KEY, fields[REF_KEY]);
    }
  }

  function Image(f: string -> string, s: set<string>): set<string> {
    set r | r in s :: f(r)
  }

  /** Rewriting reaches every reference ... */
  lemma {:induction false} MapRefsReaches(v: Value, f: string -> string, q: string)
    requires q in Refs(v)
    ensures f(q) in Refs(MapRefs(v, f))
  {
    match v
    case Array(items) =>
      var i :| 0 <= i < |items| && q in Refs(items[i]);
      MapRefsReaches(items[i], f, q);
      assert MapRefs(v, f).items[i] == MapRefs(items[i], f);
    case Object(fields) =>
      if !(HoldsRef(fields) && q == fields[REF_KEY].s) {
        var k :| k in fields && q in Refs(fields[k]);
        MapRefsReaches(fields[k], f, q);
        assert MapRefs(v, f).fields[k] == MapRefs(fields[k], f);
      }
  }

  /** ... and creates none out of nothing. */
  lemma {:induction false} MapRefsOrigin(v: Value, f: string -> string, r: string) returns (q: string)
    requires r in Refs(MapRefs(v, f))
    ensures q in Refs(v) && f(q) == r
  {
    match v
    case Array(items) =>
      var mapped := MapRefs(v, f).items;
      var i :| 0 <= i < |mapped| && r in Refs(mapped[i]);
      assert mapped[i] == MapRefs(items[i], f);
      q := MapRefsOrigin(items[i], f, r);
    case Object(fields) =>
      var mapped := MapRefs(v, f).fields;
      if HoldsRef(fields) && f(fields[REF_KEY].s) == r {
        q := fields[REF_KEY].s;
      } else {
        var k :| k in mapped && r in Refs(mapped[k]);
        q := MapRefsOrigin(fields[k], f, r);
      }
  }

  lemma RefsOfMapRefs(v: Value, f: string -> string)
    ensures Refs(MapRefs(v, f)) == Image(f, Refs(v))
  {
    forall q | q in Refs(v) ensures f(q) in Refs(MapRefs(v, f)) {
      MapRefsReaches(v, f, q);
    }
    forall r | r in Refs(MapRefs(v, f)) ensures r in Image(f, Refs(v)) {
      var q := MapRefsOrigin(v, f, r);
    }
  }

  /** Rewriting twice is rewriting once with both. */
  lemma {:induction false} MapRefsTwice(v: Value, f: string -> string, g: string -> string, h: string -> string)
    requires forall r :: h(r) == g(f(r))
    ensures MapRefs(MapRefs(v, f), g) == MapRefs(v, h)
  {
    match v
    case Array(items) =>
      forall i | 0 <= i < |items| ensures MapRefs(MapRefs(items[i], f), g) == MapRefs(items[i], h) {
        MapRefsTwice(items[i], f, g, h);
      }
      assert MapRefs(MapRefs(v, f), g).items == MapRefs(v, h).items;
    case Object(fields) =>
      forall k | k in fields ensures MapRefs(MapRefs(fields[k], f), g) == MapRefs(fields[k], h) {
        MapRefsTwice(fields[k], f, g, h);
      }
      MappedFieldsTwice(fields, f, g, h);
    case _ =>
  }

  lemma MappedFieldsTwice(fields: map<string, Value>, f: string -> string, g: string -> string, h: string -> string)
    requires (forall r :: h(r) == g(f(r))) && forall k :: k in fields ==> MapRefs(MapRefs(fields[k], f), g) == MapRefs(fields[k], h)
    ensures MapRefs(MapRefs(Object(fields), f), g) == MapRefs(Object(fields), h)
  {
    var once := MapRefs(Object(fields), f).fields;
    var twice, straight := MapRefs(Object(once), g).fields, MapRefs(Object(fields), h).fields;
    forall k | k in fields ensures twice[k] == straight[k] {
    }
    assert twice == straight;
  }

  lemma {:induction false} MapRefsAgree(v: Value, f: string -> string, g: string -> string)
    requires forall r :: r in Refs(v) ==> f(r) == g(r)
    ensures MapRefs(v, f) == MapRefs(v, g)
  {
    match v
    case Array(items) =>
      forall i | 0 <= i < |items| ensures MapRefs(items[i], f) == MapRefs(items[i], g) {
        MapRefsAgree(items[i], f, g);
      }
    case Object(fields) =>
      forall k | k in fields ensures MapRefs(fields[k], f) == MapRefs(fields[k], g) {
        MapRefsAgree(fields[k], f, g);
      }
    case _ =>
  }

  lemma {:induction false} MapRefsFixed(v: Value, f: string -> string)
    requires forall r :: r in Refs(v) ==> f(r) == r
    ensures MapRefs(v, f) == v
  {
    match v
    case Array(items) =>
      forall i | 0 <= i < |items| ensures MapRefs(items[i], f) == items[i] {
        MapRefsFixed(items[i], f);
      }
    case Object(fields) =>
      forall k | k in fields ensures MapRefs(fields[k], f) == fields[k] {
        MapRefsFixed(fields[k], f);
      }
    case _ =>
  }

  /** The references of an object, one key at a time. */
  lemma RefsSplit(fields: map<string, Value>, key: string)
    requires key in fields && key != REF_KEY
    ensures Refs(Object(fields)) == Refs(Object(fields - {key})) + Refs(fields[key])
  {
    var rest := fields - {key};
    assert HoldsRef(rest) <==> HoldsRef(fields);
    forall r | r in Refs(Object(fields)) ensures r in Refs(Object(rest)) || r in Refs(fields[key]) {
      if !(HoldsRef(fields) && r == fields[REF_KEY].s) {
        var k :| k in fields && r in Refs(fields[k]);
        assert k == key || k in rest;
      }
    }
    forall r | r in Refs(Object(rest)) ensures r in Refs(Object(fields)) {
      if !(HoldsRef(rest) && r == rest[REF_KEY].s) {
        var k :| k in rest && r in Refs(rest[k]);
        assert k in fields;
      }
    }
  }

  lemma RefsOfEntry(d: map<string, Value>, k: string, r: string)
    requires k in d && r in Refs(d[k])
    ensures r in Refs(Object(d))
  {
  }
}
