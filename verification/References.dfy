/** The `#/definitions/...` reference strings of the schema exporter and the string rewrites
    applied to them (codex-rs/app-server-protocol/src/export.rs). */
module References {
  import opened Text
  import opened Json

  const DEFS := "#/definitions/"
  const V2_DEFS := "#/definitions/v2/"

  /** `rewrite_refs_to_namespace`, on one reference. */
  function ToNamespace(r: string, ns: string): string {
    if DEFS <= r && !(ns + "/" <= r[|DEFS|..]) then DEFS + ns + "/" + r[|DEFS|..] else r
  }

  /** `rewrite_ref_prefix` as the flattener calls it, on one reference. */
  function Flatten(r: string): string {
    ReplaceAll(r, V2_DEFS, DEFS)
  }

  /** `rewrite_named_ref_to_namespace`, on one reference. */
  function NamedToNamespace(r: string, ns: string, name: string): string {
    if r == DEFS + name then DEFS + ns + "/" + name
    else if DEFS + name + "/" <= r then DEFS + ns + "/" + name + "/" + r[|DEFS + name + "/"|..]
    else r
  }

  predicate Slashless(name: string) {
    '/' !in name
  }

  lemma StripPrefix(p: string, x: string, y: string)
    ensures p + x <= p + y <==> x <= y
  {
    assert (p + y)[|p|..] == y;
    if p + x <= p + y {
      assert (p + x)[|p|..] == x;
    }
  }

  lemma HasSlash(a: string, s: string)
    ensures a + "/" <= s ==> !Slashless(s)
  {
    if a + "/" <= s {
      assert s[|a|] == '/';
    }
  }

  lemma FirstSlash(s: string, i: nat, j: nat)
    requires i < |s| && j < |s| && s[i] == '/' && s[j] == '/'
    requires (forall k :: 0 <= k < i ==> s[k] != '/') && (forall k :: 0 <= k < j ==> s[k] != '/')
    ensures i == j
  {
  }

  lemma SameSegment(a: string, b: string, rest: string)
    requires Slashless(a) && Slashless(b)
    ensures a + "/" <= b + "/" + rest ==> a == b
  {
    var s := b + "/" + rest;
    if a + "/" <= s {
      assert forall k :: 0 <= k < |a| ==> s[k] == a[k];
      assert forall k :: 0 <= k < |b| ==> s[k] == b[k];
      FirstSlash(s, |a|, |b|);
    }
  }

  lemma V2HasSlash(r: string)
    requires DEFS <= r
    ensures V2_DEFS <= r ==> !Slashless(r[|DEFS|..])
  {
    if V2_DEFS <= r {
      assert r[|DEFS|..][2] == '/';
    }
  }

  lemma ToNamespaceIdempotent(r: string, ns: string)
    ensures ToNamespace(ToNamespace(r, ns), ns) == ToNamespace(r, ns)
  {
    var once := ToNamespace(r, ns);
    if once != r {
      assert once[|DEFS|..] == ns + "/" + r[|DEFS|..];
    }
  }

  /** Forcing a name leaves references into a differently named namespace alone. */
  lemma NamedKeepsNamespaced(ns: string, name: string, other: string, m: string)
    requires Slashless(name) && Slashless(other) && name != other
    ensures NamedToNamespace(DEFS + other + "/" + m, ns, name) == DEFS + other + "/" + m
  {
    var suffix := other + "/" + m;
    assert DEFS + other + "/" + m == DEFS + suffix;
    assert DEFS + name + "/" == DEFS + (name + "/");
    StripPrefix(DEFS, name + "/", suffix);
    StripPrefix(DEFS, suffix, name);
    SameSegment(name, other, m);
    HasSlash(other, suffix);
  }

  lemma ResolveRoot(document: Value, name: string)
    requires Slashless(name)
    ensures Resolve(document, DEFS + name) == Lookup(document, ["definitions", name])
  {
    assert (DEFS + name)[2..] == "definitions" + "/" + name;
    SegmentsSplit("definitions", name);
    SegmentsSingle(name);
  }

  lemma ResolveNamespaced(document: Value, ns: string, name: string)
    requires Slashless(ns) && Slashless(name)
    ensures Resolve(document, DEFS + ns + "/" + name) == Lookup(document, ["definitions", ns, name])
  {
    assert (DEFS + ns + "/" + name)[2..] == "definitions" + "/" + (ns + "/" + name);
    SegmentsSplit("definitions", ns + "/" + name);
    SegmentsSplit(ns, name);
    SegmentsSingle(name);
    assert ["definitions"] + ([ns] + [name]) == ["definitions", ns, name];
  }

  lemma FlattenRoot(name: string)
    requires Slashless(name)
    ensures Flatten(DEFS + name) == DEFS + name
  {
    ReplaceNothing(DEFS + name, V2_DEFS, DEFS, 13);
  }

  lemma {:induction false} FlattenPlain(s: string)
    requires '#' !in s
    ensures Flatten(s) == s
  {
    if s != "" {
      assert s[0] in s && V2_DEFS[0] == '#' && forall c :: c in s[1..] ==> c in s;
      FlattenPlain(s[1..]);
    }
  }

  /** A v2 reference, with whatever path it goes on, loses its namespace. Nothing else changes unless the
      rest holds another such reference. */
  lemma FlattenV2(rest: string)
    ensures Flatten(V2_DEFS + rest) == DEFS + Flatten(rest)
    ensures Slashless(rest) || '#' !in rest ==> Flatten(V2_DEFS + rest) == DEFS + rest
  {
    assert (V2_DEFS + rest)[|V2_DEFS|..] == rest;
    if Slashless(rest) {
      ReplaceNothing(rest, V2_DEFS, DEFS, 0);
    } else if '#' !in rest {
      FlattenPlain(rest);
    }
  }

  /** The namespace is lost wherever it stands in the reference. */
  lemma {:induction false} FlattenInside(before: string, rest: string)
    requires '#' !in before
    ensures Flatten(before + V2_DEFS + rest) == before + DEFS + Flatten(rest)
  {
    var s := before + V2_DEFS + rest;
    if before == "" {
      assert s == V2_DEFS + rest;
      FlattenV2(rest);
    } else {
      assert before[0] in before && s[0] == before[0] && !(V2_DEFS <= s);
      assert s[1..] == before[1..] + V2_DEFS + rest;
      assert forall c :: c in before[1..] ==> c in before;
      FlattenInside(before[1..], rest);
    }
  }

  /** Past its first character DEFS has no `#`, so no replacement can supply a part of it. */
  lemma {:induction false} FlattenKeepsTail(s: string, k: nat)
    requires 1 <= k <= |DEFS|
    requires DEFS[k..] <= Flatten(s)
    ensures DEFS[k..] <= s
    decreases |DEFS| - k
  {
    if k < |DEFS| && s != "" {
      assert Flatten(s)[0] == DEFS[k..][0] == DEFS[k] != '#';
      assert !(V2_DEFS <= s);
      assert Flatten(s)[1..] == Flatten(s[1..]);
      assert DEFS[k..][1..] == DEFS[k + 1..];
      FlattenKeepsTail(s[1..], k + 1);
      assert s == [s[0]] + s[1..];
    }
  }

  /** Flattening turns no foreign reference into a local definition reference. */
  lemma FlattenKeepsForeign(r: string)
    requires DEFS <= Flatten(r)
    ensures DEFS <= r
  {
    if V2_DEFS <= r {
      assert r[..|DEFS|] == DEFS;
    } else if r != "" {
      assert Flatten(r)[1..] == Flatten(r[1..]);
      assert DEFS[1..] <= Flatten(r)[1..];
      FlattenKeepsTail(r[1..], 1);
      assert r == [r[0]] + r[1..];
    }
  }
}
