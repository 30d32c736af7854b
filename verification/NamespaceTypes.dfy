/** Which namespace a type name lives in, read off the schemas themselves, and what that does to the references
    and definitions of root schemas (codex-rs/app-server-protocol/src/export.rs:1004-1074, 1589-1650). */
module NamespaceTypes {
  import opened Text
  import opened Json
  import opened References
  import opened SchemaBundle
  import opened BundleExact
  import opened BundleRefs
  import opened BundleClosed

  /** The value has an object under `key`, and `n` is a key of it. */
  predicate HasKey(v: Value, key: string, n: string) {
    v.Object? && key in v.fields && v.fields[key].Object? && n in v.fields[key].fields
  }

  /** The schema has a namespace, and is named `n` or has it as a key of `definitions` or `$defs`. */
  predicate Mentions(s: GeneratedSchema, n: string) {
    s.namespace.Some? && (s.name == n || HasKey(s.value, "definitions", n) || HasKey(s.value, "$defs", n))
  }

  ghost predicate Mentioned(schemas: seq<GeneratedSchema>, n: string) {
    exists i :: 0 <= i < |schemas| && Mentions(schemas[i], n)
  }

  /** The schema at `i` is the first to mention the name. */
  ghost predicate FirstAt(schemas: seq<GeneratedSchema>, n: string, i: nat) {
    i < |schemas| && Mentions(schemas[i], n) && forall j :: 0 <= j < i ==> !Mentions(schemas[j], n)
  }

  ghost predicate FirstIn(schemas: seq<GeneratedSchema>, n: string, ns: string) {
    exists i: nat :: FirstAt(schemas, n, i) && schemas[i].namespace == Some(ns)
  }

  lemma NamesOf(s: GeneratedSchema, n: string)
    requires s.namespace.Some?
    ensures n in TypeNames(s) <==> Mentions(s, n)
  {
  }

  lemma FirstGrows(schemas: seq<GeneratedSchema>, n: string, ns: string, front: seq<GeneratedSchema>, last: GeneratedSchema)
    requires schemas != [] && front == schemas[..|schemas| - 1] && last == schemas[|schemas| - 1]
    ensures Mentioned(schemas, n) <==> Mentioned(front, n) || Mentions(last, n)
    ensures FirstIn(schemas, n, ns) <==>
      FirstIn(front, n, ns) || (!Mentioned(front, n) && Mentions(last, n) && last.namespace == Some(ns))
  {
    var k := |schemas| - 1;
    assert forall i :: 0 <= i < k ==> schemas[i] == front[i];
    if FirstIn(front, n, ns) {
      var i: nat :| FirstAt(front, n, i) && front[i].namespace == Some(ns);
      assert FirstAt(schemas, n, i);
    }
    if FirstIn(schemas, n, ns) {
      var i: nat :| FirstAt(schemas, n, i) && schemas[i].namespace == Some(ns);
      if i < k {
        assert FirstAt(front, n, i);
      }
    }
    if !Mentioned(front, n) && Mentions(last, n) {
      assert FirstAt(schemas, n, k);
    }
    if Mentioned(front, n) {
      var i :| 0 <= i < k && Mentions(front[i], n);
      assert Mentions(schemas[i], n);
    }
    if Mentions(last, n) {
      assert Mentions(schemas[k], n);
    }
  }

  /** A name has a namespace exactly when a namespaced schema mentions it, and it is that of the first to do so. */
  lemma {:induction false} TypesAreFirstMentions(schemas: seq<GeneratedSchema>, n: string, ns: string)
    ensures n in NamespacedTypes(schemas) <==> Mentioned(schemas, n)
    ensures n in NamespacedTypes(schemas) && NamespacedTypes(schemas)[n] == ns <==> FirstIn(schemas, n, ns)
  {
    if schemas != [] {
      var front, last := schemas[..|schemas| - 1], schemas[|schemas| - 1];
      TypesAreFirstMentions(front, n, ns);
      FirstGrows(schemas, n, ns, front, last);
      if last.namespace.Some? {
        NamesOf(last, n);
      }
    }
  }

  // ----- digits at the end of a name -----

  predicate EndsInDigit(s: string) {
    s != "" && '0' <= s[|s| - 1] <= '9'
  }

  lemma {:induction false} DigitsTrimmed(m: string, digits: string)
    requires AllDigits(digits) && !EndsInDigit(m)
    ensures TrimDigits(m + digits) == m
    decreases |digits|
  {
    if digits == "" {
      assert m + digits == m;
    } else {
      var rest := digits[..|digits| - 1];
      assert (m + digits)[..|m + digits| - 1] == m + rest;
      DigitsTrimmed(m, rest);
    }
  }

  lemma {:induction false} TrimParts(n: string) returns (digits: string)
    ensures n == TrimDigits(n) + digits && AllDigits(digits) && !EndsInDigit(TrimDigits(n))
    ensures TrimDigits(n) == n <==> digits == ""
  {
    if EndsInDigit(n) {
      var rest := TrimParts(n[..|n| - 1]);
      digits := rest + [n[|n| - 1]];
      assert n == n[..|n| - 1] + [n[|n| - 1]];
    } else {
      digits := "";
    }
  }

  /** The name is mentioned, or else it is a mentioned name with digits behind it. */
  ghost predicate LivesIn(schemas: seq<GeneratedSchema>, n: string, ns: string) {
    FirstIn(schemas, n, ns)
    || (!Mentioned(schemas, n)
        && exists m, digits :: n == m + digits && digits != "" && AllDigits(digits) && !EndsInDigit(m) && FirstIn(schemas, m, ns))
  }

  lemma NamespaceForExact(schemas: seq<GeneratedSchema>, n: string, ns: string)
    ensures NamespaceFor(n, NamespacedTypes(schemas)) == Some(ns) <==> LivesIn(schemas, n, ns)
  {
    var types := NamespacedTypes(schemas);
    TypesAreFirstMentions(schemas, n, ns);
    if n !in types {
      var m := TrimDigits(n);
      var digits := TrimParts(n);
      TypesAreFirstMentions(schemas, m, ns);
      if NamespaceFor(n, types) == Some(ns) {
        assert n == m + digits && FirstIn(schemas, m, ns);
      }
      forall m', digits' | n == m' + digits' && digits' != "" && AllDigits(digits') && !EndsInDigit(m') ensures m' == m && m != n {
        DigitsTrimmed(m', digits');
      }
    }
  }
}
