/** When bundling succeeds, with which error it fails, and what every name of the bundle holds: each entry
    under `definitions` shows the last root schema that wrote it and the claims made on it since. */
module BundleExact {
  import opened Text
  import opened Json
  import opened References
  import opened SchemaBundle

  /** What stays the same over a run: the namespaces of the type names, and the host. */
  datatype Job = Job(types: map<string, string>, host: Host)

  // ----- what the schemas ask for -----

  /** A schema asks for a name in a namespace to hold some content. */
  datatype Claim = Claim(ns: string, name: string, schema: Value)

  ghost function ClaimsFor(ns: string, added: map<string, Value>): set<Claim> {
    set n | n in added :: Claim(ns, n, added[n])
  }

  predicate Claims(s: GeneratedSchema) {
    s.namespace.Some? && s.name !in IGNORED
  }

  /** What a namespaced schema asks for. */
  ghost function ClaimsOf(s: GeneratedSchema, host: Host): set<Claim> {
    if !Claims(s) then {}
    else
      var ns := s.namespace.value;
      var v := MapRefs(s.value, InNamespace(ns));
      ClaimsFor(ns, Contributions(LocalDefs(v), ns, host)) + ClaimsFor(ns, map[s.name := Body(v)])
  }

  /** What a root schema writes under `definitions`, over whatever is there. */
  function RootWrites(s: GeneratedSchema, job: Job): map<string, Value> {
    if s.namespace.Some? || s.name in IGNORED then map[]
    else
      var v := MapRefs(s.value, Known(job.types));
      var defs := LocalDefs(v);
      RootContributions(defs, s.inV1, job.types, job.host)
        [s.name := ForceRefs(Body(v), ForcedRefs(job.host.order(defs.Keys), defs, s.inV1, job.types))]
  }

  function LastWith(written: seq<set<string>>, x: string): (i: int)
    ensures -1 <= i < |written|
    ensures i >= 0 ==> x in written[i]
    ensures forall j :: i < j < |written| ==> x !in written[j]
  {
    if written == [] then -1
    else if x in written[|written| - 1] then |written| - 1
    else LastWith(written[..|written| - 1], x)
  }

  /** The names each schema writes. */
  function Written(schemas: seq<GeneratedSchema>, job: Job): seq<set<string>> {
    seq(|schemas|, i requires 0 <= i < |schemas| => RootWrites(schemas[i], job).Keys)
  }

  /** The last root schema to write a name, or -1. */
  function LastWrite(schemas: seq<GeneratedSchema>, job: Job, x: string): (i: int)
    ensures -1 <= i < |schemas|
    ensures i >= 0 ==> x in RootWrites(schemas[i], job)
    ensures forall j :: i < j < |schemas| ==> x !in RootWrites(schemas[j], job)
  {
    var written := Written(schemas, job);
    assert forall j :: 0 <= j < |schemas| ==> written[j] == RootWrites(schemas[j], job).Keys;
    LastWith(written, x)
  }

  /** What the last write left. */
  function Start(schemas: seq<GeneratedSchema>, job: Job, x: string): Option<Value> {
    var i := LastWrite(schemas, job, x);
    if i < 0 then None else Some(RootWrites(schemas[i], job)[x])
  }

  /** What each schema asks for. */
  ghost function Asked(schemas: seq<GeneratedSchema>, host: Host): seq<set<Claim>> {
    seq(|schemas|, i requires 0 <= i < |schemas| => ClaimsOf(schemas[i], host))
  }

  ghost function Behind(asked: seq<set<Claim>>, i: int, x: string): set<Claim> {
    set j, c | 0 <= j < |asked| && i < j && c in asked[j] && c.ns == x :: c
  }

  ghost function On(claims: set<Claim>, x: string): set<Claim> {
    set c | c in claims && c.ns == x
  }

  lemma BehindGrows(asked: seq<set<Claim>>, i: int, x: string, last: set<Claim>)
    requires i < |asked|
    ensures Behind(asked + [last], i, x) == Behind(asked, i, x) + On(last, x)
  {
    var longer := asked + [last];
    forall c | c in Behind(longer, i, x) ensures c in Behind(asked, i, x) + On(last, x) {
      var j :| 0 <= j < |longer| && i < j && c in longer[j] && c.ns == x;
      if j < |asked| {
        assert longer[j] == asked[j];
      }
    }
    forall c | c in Behind(asked, i, x) + On(last, x) ensures c in Behind(longer, i, x) {
      if c in Behind(asked, i, x) {
        var j :| 0 <= j < |asked| && i < j && c in asked[j] && c.ns == x;
        assert longer[j] == asked[j];
      } else {
        assert longer[|asked|] == last;
      }
    }
  }

  /** The claims on a namespace by the schemas behind position `i`. */
  ghost function ClaimsBehind(schemas: seq<GeneratedSchema>, i: int, x: string, host: Host): set<Claim> {
    Behind(Asked(schemas, host), i, x)
  }

  // ----- one entry under `definitions` -----

  datatype Slot = Slot(start: Option<Value>, claims: set<Claim>)

  ghost function SlotOf(schemas: seq<GeneratedSchema>, job: Job, x: string): Slot {
    Slot(Start(schemas, job, x), ClaimsBehind(schemas, LastWrite(schemas, job, x), x, job.host))
  }

  lemma LastWriteGrows(schemas: seq<GeneratedSchema>, job: Job, x: string)
    requires schemas != []
    ensures var k := |schemas| - 1;
      LastWrite(schemas, job, x) == if x in RootWrites(schemas[k], job) then k else LastWrite(schemas[..k], job, x)
  {
    var k := |schemas| - 1;
    assert Written(schemas, job)[..k] == Written(schemas[..k], job);
  }

  lemma AskedGrows(schemas: seq<GeneratedSchema>, host: Host)
    requires schemas != []
    ensures var k := |schemas| - 1; Asked(schemas, host) == Asked(schemas[..k], host) + [ClaimsOf(schemas[k], host)]
  {
  }

  lemma SlotGrows(schemas: seq<GeneratedSchema>, job: Job, x: string)
    requires schemas != []
    ensures var front, last := schemas[..|schemas| - 1], schemas[|schemas| - 1];
      SlotOf(schemas, job, x) ==
        if x in RootWrites(last, job) then Slot(Some(RootWrites(last, job)[x]), {})
        else Slot(Start(front, job, x), SlotOf(front, job, x).claims + On(ClaimsOf(last, job.host), x))
  {
    var k := |schemas| - 1;
    var front := schemas[..k];
    var i := LastWrite(schemas, job, x);
    LastWriteGrows(schemas, job, x);
    if i < k {
      AskedGrows(schemas, job.host);
      BehindGrows(Asked(front, job.host), i, x, ClaimsOf(schemas[k], job.host));
      assert i >= 0 ==> front[i] == schemas[i];
    } else {
      assert ClaimsBehind(schemas, i, x, job.host) == {};
    }
  }

  /** What an entry holds under a name: what was claimed, or what the last write brought along. */
  ghost predicate Holds(slot: Slot, x: string, n: string, v: Value) {
    Claim(x, n, v) in slot.claims || (slot.start.Some? && Child(slot.start.value, n) == Some(v))
  }

  ghost predicate Shows(definitions: map<string, Value>, x: string, slot: Slot) {
    && (x in definitions <==> slot.start.Some? || slot.claims != {})
    && (slot.start.Some? && slot.claims == {} ==> definitions[x] == slot.start.value)
    && (slot.claims != {} ==> definitions[x].Object? && (slot.start.Some? ==> slot.start.value.Object?))
    && (slot.claims != {} ==> forall n, v ::
          n in definitions[x].fields && definitions[x].fields[n] == v <==> Holds(slot, x, n, v))
  }

  /** No name is asked to hold two different schemas. */
  ghost predicate Consistent(claims: set<Claim>) {
    forall c, d :: c in claims && d in claims && c.ns == d.ns && c.name == d.name ==> c.schema == d.schema
  }

  predicate Blocked(slot: Slot) {
    slot.start.Some? && !slot.start.value.Object?
  }

  /** New claims agree with each other and with everything the entry holds. */
  ghost predicate Agreeing(slot: Slot, x: string, claims: set<Claim>) {
    && Consistent(claims)
    && forall c, v :: c in claims && Holds(slot, x, c.name, v) ==> c.schema == v
  }

  ghost predicate Fits(slot: Slot, x: string, claims: set<Claim>) {
    !Blocked(slot) && Agreeing(slot, x, claims)
  }

  function Extended(slot: Slot, claims: set<Claim>): Slot {
    slot.(claims := slot.claims + claims)
  }

  // ----- inserting into a namespace -----

  lemma ContentHolds(definitions: map<string, Value>, x: string, slot: Slot)
    requires Shows(definitions, x, slot) && !Blocked(slot)
    ensures forall n, v :: n in NamespaceContent(definitions, x) && NamespaceContent(definitions, x)[n] == v <==> Holds(slot, x, n, v)
  {
  }

  lemma AgreeMeans(definitions: map<string, Value>, x: string, slot: Slot, added: map<string, Value>)
    requires Shows(definitions, x, slot) && !Blocked(slot)
    ensures Agree(NamespaceContent(definitions, x), added) <==> Agreeing(slot, x, ClaimsFor(x, added))
  {
    ContentHolds(definitions, x, slot);
    var content := NamespaceContent(definitions, x);
    if !Agree(content, added) {
      var n :| n in added && n in content && content[n] != added[n];
      assert Claim(x, n, added[n]) in ClaimsFor(x, added) && Holds(slot, x, n, content[n]);
    }
  }

  lemma BlockedMeans(definitions: map<string, Value>, x: string, slot: Slot)
    requires Shows(definitions, x, slot)
    ensures x in definitions && !definitions[x].Object? <==> Blocked(slot)
  {
  }

  lemma ExtendedShows(definitions: map<string, Value>, x: string, slot: Slot, added: map<string, Value>, definitions': map<string, Value>)
    requires Shows(definitions, x, slot) && Fits(slot, x, ClaimsFor(x, added)) && added != map[]
    requires definitions' == definitions[x := Object(NamespaceContent(definitions, x) + added)]
    ensures Shows(definitions', x, Extended(slot, ClaimsFor(x, added)))
  {
    ContentHolds(definitions, x, slot);
    var content, slot' := NamespaceContent(definitions, x), Extended(slot, ClaimsFor(x, added));
    var n0 :| n0 in added;
    assert Claim(x, n0, added[n0]) in slot'.claims;
    forall n, v ensures n in (content + added) && (content + added)[n] == v <==> Holds(slot', x, n, v) {
      assert Claim(x, n, v) in ClaimsFor(x, added) <==> n in added && added[n] == v;
      assert n in content && content[n] == v <==> Holds(slot, x, n, v);
      if n in added && Holds(slot, x, n, v) {
        var c := Claim(x, n, added[n]);
        assert c in ClaimsFor(x, added) && c.name == n;
      }
    }
  }

  /** Inserting a batch succeeds exactly when it fits, fails with the error that says why, and then the
      entry shows the batch too. */
  lemma InsertAllExact(definitions: map<string, Value>, x: string, slot: Slot, added: map<string, Value>,
    result: Result<map<string, Value>, BundleError>)
    requires Shows(definitions, x, slot) && result == InsertAll(definitions, x, added)
    ensures result.Ok? <==> added == map[] || Fits(slot, x, ClaimsFor(x, added))
    ensures result.Ok? ==> Shows(result.value, x, Extended(slot, ClaimsFor(x, added)))
    ensures result.Ok? ==> forall y :: y != x ==> (y in result.value <==> y in definitions) && (y in definitions ==> result.value[y] == definitions[y])
    ensures result.Err? ==> result.error == if Blocked(slot) then NamespaceNotObject(x) else Collision(x)
  {
    BlockedMeans(definitions, x, slot);
    if added == map[] {
      assert Extended(slot, ClaimsFor(x, added)) == slot;
    } else if !Blocked(slot) {
      AgreeMeans(definitions, x, slot, added);
      if result.Ok? {
        ExtendedShows(definitions, x, slot, added, result.value);
      }
    }
  }

  lemma FitsTwice(slot: Slot, x: string, first: set<Claim>, second: set<Claim>)
    requires forall c :: c in first + second ==> c.ns == x
    ensures Fits(slot, x, first + second) <==> Fits(slot, x, first) && Fits(Extended(slot, first), x, second)
  {
    if Fits(slot, x, first + second) {
      forall c, v | c in second && Holds(Extended(slot, first), x, c.name, v) ensures c.schema == v {
        assert c in first + second;
        if Claim(x, c.name, v) in first {
          var d := Claim(x, c.name, v);
          assert d in first + second && c.ns == d.ns && c.name == d.name;
        } else {
          assert Holds(slot, x, c.name, v);
        }
      }
    }
    if Fits(slot, x, first) && Fits(Extended(slot, first), x, second) {
      forall c, d | c in first && d in second && c.name == d.name ensures c.schema == d.schema {
        assert c == Claim(x, c.name, c.schema);
        assert Holds(Extended(slot, first), x, d.name, c.schema);
      }
      forall c, v | c in first + second && Holds(slot, x, c.name, v) ensures c.schema == v {
        assert Holds(Extended(slot, first), x, c.name, v);
      }
    }
  }

  // ----- one schema -----

  ghost predicate AllShow(definitions: map<string, Value>, schemas: seq<GeneratedSchema>, job: Job) {
    forall x :: Shows(definitions, x, SlotOf(schemas, job, x))
  }

  lemma RootAdds(definitions: map<string, Value>, s: GeneratedSchema, job: Job)
    requires !Claims(s)
    ensures AddSchema(definitions, s, job.types, job.host) == Ok(definitions + RootWrites(s, job))
  {
    if s.name in IGNORED {
      assert definitions + map[] == definitions;
    } else {
      var v := MapRefs(s.value, Known(job.types));
      var defs := LocalDefs(v);
      var added := RootContributions(defs, s.inV1, job.types, job.host);
      MergeThenSet(definitions, added, s.name, ForceRefs(Body(v), ForcedRefs(job.host.order(defs.Keys), defs, s.inV1, job.types)));
    }
  }

  lemma MergeThenSet(d: map<string, Value>, added: map<string, Value>, n: string, v: Value)
    ensures (d + added)[n := v] == d + added[n := v]
  {
  }

  lemma ClaimsNameTheirNamespace(s: GeneratedSchema, host: Host)
    ensures forall c :: c in ClaimsOf(s, host) ==> Claims(s) && c.ns == s.namespace.value
  {
  }

  lemma RootShows(definitions: map<string, Value>, schemas: seq<GeneratedSchema>, job: Job)
    requires schemas != [] && !Claims(schemas[|schemas| - 1]) && AllShow(definitions, schemas[..|schemas| - 1], job)
    ensures AllShow(definitions + RootWrites(schemas[|schemas| - 1], job), schemas, job)
  {
    var last := schemas[|schemas| - 1];
    forall x ensures Shows(definitions + RootWrites(last, job), x, SlotOf(schemas, job, x)) {
      SlotGrows(schemas, job, x);
      var before := SlotOf(schemas[..|schemas| - 1], job, x);
      assert Shows(definitions, x, before);
      assert before.claims + On(ClaimsOf(last, job.host), x) == before.claims;
    }
  }

  /** The schema's claims fit the entry of its namespace as the schemas before it left it. */
  ghost predicate Admissible(schemas: seq<GeneratedSchema>, k: nat, job: Job)
    requires k < |schemas|
  {
    var s := schemas[k];
    Claims(s) ==> Fits(SlotOf(schemas[..k], job, s.namespace.value), s.namespace.value, ClaimsOf(s, job.host))
  }

  ghost predicate OnlyChanges(definitions: map<string, Value>, definitions': map<string, Value>, x: string) {
    forall y :: y != x ==> (y in definitions' <==> y in definitions) && (y in definitions ==> definitions'[y] == definitions[y])
  }

  /** Two batches, one after the other, fit exactly when they fit together. */
  lemma InsertTwiceExact(definitions: map<string, Value>, x: string, slot: Slot, added: map<string, Value>, own: map<string, Value>,
    claims: set<Claim>, middle: Result<map<string, Value>, BundleError>, result: Result<map<string, Value>, BundleError>)
    requires Shows(definitions, x, slot) && own != map[] && claims == ClaimsFor(x, added) + ClaimsFor(x, own)
    requires middle == InsertAll(definitions, x, added)
    requires result == if middle.Ok? then InsertAll(middle.value, x, own) else middle
    ensures result.Ok? <==> Fits(slot, x, claims)
    ensures result.Ok? ==> Shows(result.value, x, Extended(slot, claims)) && OnlyChanges(definitions, result.value, x)
    ensures result.Err? ==> result.error == if Blocked(slot) then NamespaceNotObject(x) else Collision(x)
  {
    var first, second := ClaimsFor(x, added), ClaimsFor(x, own);
    InsertAllExact(definitions, x, slot, added, middle);
    FitsTwice(slot, x, first, second);
    if added == map[] {
      assert first == {} && first + second == second && Extended(slot, first) == slot;
    }
    if middle.Ok? {
      InsertAllExact(middle.value, x, Extended(slot, first), own, result);
      assert slot.claims + first + second == slot.claims + (first + second);
    }
  }

  lemma AddNamespacedExact(definitions: map<string, Value>, s: GeneratedSchema, job: Job, slot: Slot, ns: string,
    result: Result<map<string, Value>, BundleError>)
    requires Claims(s) && ns == s.namespace.value && Shows(definitions, ns, slot)
    requires result == AddSchema(definitions, s, job.types, job.host)
    ensures result.Ok? <==> Fits(slot, ns, ClaimsOf(s, job.host))
    ensures result.Ok? ==> Shows(result.value, ns, Extended(slot, ClaimsOf(s, job.host))) && OnlyChanges(definitions, result.value, ns)
    ensures result.Err? ==> result.error == if Blocked(slot) then NamespaceNotObject(ns) else Collision(ns)
  {
    var v := MapRefs(s.value, InNamespace(ns));
    var added, own := Contributions(LocalDefs(v), ns, job.host), map[s.name := Body(v)];
    assert s.name in own;
    InsertTwiceExact(definitions, ns, slot, added, own, ClaimsOf(s, job.host), InsertAll(definitions, ns, added), result);
  }

  lemma NamespacedShows(definitions: map<string, Value>, schemas: seq<GeneratedSchema>, job: Job, definitions': map<string, Value>)
    requires schemas != [] && Claims(schemas[|schemas| - 1]) && AllShow(definitions, schemas[..|schemas| - 1], job)
    requires AddSchema(definitions, schemas[|schemas| - 1], job.types, job.host) == Ok(definitions')
    ensures AllShow(definitions', schemas, job)
  {
    var front, last := schemas[..|schemas| - 1], schemas[|schemas| - 1];
    var ns := last.namespace.value;
    AddNamespacedExact(definitions, last, job, SlotOf(front, job, ns), ns, Ok(definitions'));
    ClaimsNameTheirNamespace(last, job.host);
    forall x ensures Shows(definitions', x, SlotOf(schemas, job, x)) {
      SlotGrows(schemas, job, x);
      var slot := SlotOf(front, job, x);
      assert Shows(definitions, x, slot);
      if x == ns {
        assert On(ClaimsOf(last, job.host), x) == ClaimsOf(last, job.host);
      } else {
        assert slot.claims + On(ClaimsOf(last, job.host), x) == slot.claims;
      }
    }
  }

  // ----- all schemas -----

  ghost predicate AllAdmissible(schemas: seq<GeneratedSchema>, k: nat, job: Job)
    requires k <= |schemas|
  {
    forall j: nat :: j < k ==> Admissible(schemas, j, job)
  }

  lemma OneMoreAdmissible(schemas: seq<GeneratedSchema>, k: nat, job: Job)
    requires k < |schemas|
    ensures AllAdmissible(schemas, k + 1, job) <==> AllAdmissible(schemas, k, job) && Admissible(schemas, k, job)
  {
  }

  lemma AddOneExact(schemas: seq<GeneratedSchema>, k: nat, job: Job, definitions: map<string, Value>,
    result: Result<map<string, Value>, BundleError>)
    requires k < |schemas| && AllShow(definitions, schemas[..k], job)
    requires result == AddSchema(definitions, schemas[k], job.types, job.host)
    ensures result.Ok? <==> Admissible(schemas, k, job)
    ensures result.Ok? ==> AllShow(result.value, schemas[..k + 1], job)
  {
    var s, now := schemas[k], schemas[..k + 1];
    assert now[..k] == schemas[..k] && now[k] == s;
    if Claims(s) {
      var ns := s.namespace.value;
      AddNamespacedExact(definitions, s, job, SlotOf(schemas[..k], job, ns), ns, result);
      if result.Ok? {
        NamespacedShows(definitions, now, job, result.value);
      }
    } else {
      RootAdds(definitions, s, job);
      RootShows(definitions, now, job);
    }
  }

  lemma NothingAdded(schemas: seq<GeneratedSchema>, job: Job, result: Result<map<string, Value>, BundleError>)
    requires result == AddSchemas(schemas[..0], job.types, job.host)
    ensures result == Ok(map[]) && AllShow(map[], schemas[..0], job)
  {
    assert schemas[..0] == [];
    NothingShows(job);
  }

  lemma OneMoreAdded(schemas: seq<GeneratedSchema>, k: nat, job: Job, before: Result<map<string, Value>, BundleError>,
    result: Result<map<string, Value>, BundleError>)
    requires k < |schemas| && (before.Ok? <==> AllAdmissible(schemas, k, job))
    requires before.Ok? ==> AllShow(before.value, schemas[..k], job)
    requires before == AddSchemas(schemas[..k], job.types, job.host) && result == AddSchemas(schemas[..k + 1], job.types, job.host)
    ensures result.Ok? <==> AllAdmissible(schemas, k + 1, job)
    ensures result.Ok? ==> AllShow(result.value, schemas[..k + 1], job)
  {
    OneMoreAdmissible(schemas, k, job);
    AddSchemasNext(schemas, k, job, before, result);
    if before.Ok? {
      AddOneExact(schemas, k, job, before.value, result);
    }
  }

  lemma AddSchemasNext(schemas: seq<GeneratedSchema>, k: nat, job: Job, before: Result<map<string, Value>, BundleError>,
    result: Result<map<string, Value>, BundleError>)
    requires k < |schemas|
    requires before == AddSchemas(schemas[..k], job.types, job.host) && result == AddSchemas(schemas[..k + 1], job.types, job.host)
    ensures result == if before.Err? then before else AddSchema(before.value, schemas[k], job.types, job.host)
  {
    assert schemas[..k + 1][..k] == schemas[..k];
  }

  /** The loop gets past a prefix exactly when every schema in it is admissible, and then shows every entry. */
  lemma {:induction false} AddSchemasExact(schemas: seq<GeneratedSchema>, k: nat, job: Job, result: Result<map<string, Value>, BundleError>)
    requires k <= |schemas| && result == AddSchemas(schemas[..k], job.types, job.host)
    ensures result.Ok? <==> AllAdmissible(schemas, k, job)
    ensures result.Ok? ==> AllShow(result.value, schemas[..k], job)
  {
    if k == 0 {
      NothingAdded(schemas, job, result);
    } else {
      var before := AddSchemas(schemas[..k - 1], job.types, job.host);
      AddSchemasExact(schemas, k - 1, job, before);
      OneMoreAdded(schemas, k - 1, job, before, result);
    }
  }

  lemma NothingShows(job: Job)
    ensures AllShow(map[], [], job)
  {
    forall x ensures Shows(map[], x, SlotOf([], job, x)) {
      assert ClaimsBehind([], -1, x, job.host) == {};
    }
  }

  function JobOf(schemas: seq<GeneratedSchema>, host: Host): Job {
    Job(NamespacedTypes(schemas), host)
  }

  /** Bundling succeeds exactly when every schema's claims fit what the schemas before it left in its
      namespace. Then each name under `definitions` shows its last root write and the claims since. */
  lemma BundlingExact(schemas: seq<GeneratedSchema>, host: Host, job: Job)
    requires job == JobOf(schemas, host)
    ensures Bundle(schemas, host).Ok? <==> AllAdmissible(schemas, |schemas|, job)
    ensures Bundle(schemas, host).Ok? ==>
      exists definitions :: Bundle(schemas, host) == Ok(BundleRoot(definitions)) && AllShow(definitions, schemas, job)
  {
    assert schemas[..|schemas|] == schemas;
    AddSchemasExact(schemas, |schemas|, job, AddSchemas(schemas, job.types, job.host));
  }

  /** The error is that of the first schema that does not fit: its namespace is no object, or a name
      would have to hold two schemas. */
  lemma BundlingError(schemas: seq<GeneratedSchema>, host: Host, job: Job, k: nat)
    requires job == JobOf(schemas, host) && k < |schemas|
    requires !Admissible(schemas, k, job) && AllAdmissible(schemas, k, job)
    ensures var ns := schemas[k].namespace.value;
      Bundle(schemas, host) == Err(if Blocked(SlotOf(schemas[..k], job, ns)) then NamespaceNotObject(ns) else Collision(ns))
  {
    AddSchemasExact(schemas, k, job, AddSchemas(schemas[..k], job.types, job.host));
    AddSchemasExact(schemas, k + 1, job, AddSchemas(schemas[..k + 1], job.types, job.host));
    var definitions, s := AddSchemas(schemas[..k], job.types, job.host).value, schemas[k];
    var ns := s.namespace.value;
    assert schemas[..k + 1][..k] == schemas[..k];
    AddNamespacedExact(definitions, s, job, SlotOf(schemas[..k], job, ns), ns, AddSchema(definitions, s, job.types, job.host));
    ErrorsStick(schemas, k + 1, job.types, job.host);
  }

  /** What a namespaced name, or a name inside a root schema, resolves to in the bundle. */
  lemma EntryExact(schemas: seq<GeneratedSchema>, host: Host, job: Job, x: string, n: string, v: Value)
    requires job == JobOf(schemas, host) && Bundle(schemas, host).Ok?
    ensures Lookup(Bundle(schemas, host).value, ["definitions", x, n]) == Some(v) <==> Holds(SlotOf(schemas, job, x), x, n, v)
  {
    BundlingExact(schemas, host, job);
    var definitions :| Bundle(schemas, host) == Ok(BundleRoot(definitions)) && AllShow(definitions, schemas, job);
    assert Shows(definitions, x, SlotOf(schemas, job, x));
    PathUnderDefinitions(definitions, x, [n]);
    assert ["definitions", x] + [n] == ["definitions", x, n];
    if x in definitions {
      assert [n][1..] == [];
    }
  }

  lemma PathUnderDefinitions(definitions: map<string, Value>, x: string, path: seq<string>)
    ensures Lookup(BundleRoot(definitions), ["definitions", x] + path) ==
      if x in definitions then Lookup(definitions[x], path) else None
  {
    var all := ["definitions", x] + path;
    assert all[1..] == [x] + path;
    assert Lookup(BundleRoot(definitions), all) == Lookup(Object(definitions), [x] + path);
    assert ([x] + path)[1..] == path;
  }

  lemma ClaimStands(schemas: seq<GeneratedSchema>, host: Host, job: Job, i: nat, c: Claim, w: int)
    requires i < |schemas| && c in ClaimsOf(schemas[i], host) && job.host == host && w == LastWrite(schemas, job, c.ns) < i
    ensures c in SlotOf(schemas, job, c.ns).claims
  {
    assert c in Asked(schemas, host)[i];
  }

  /** A claim of an accepted bundle is still there exactly when no later root schema wrote over its
      namespace, or what came afterwards holds the same schema again. */
  lemma ClaimSurvives(schemas: seq<GeneratedSchema>, host: Host, job: Job, i: nat, c: Claim)
    requires job == JobOf(schemas, host) && Bundle(schemas, host).Ok?
    requires i < |schemas| && c in ClaimsOf(schemas[i], host)
    ensures Lookup(Bundle(schemas, host).value, ["definitions", c.ns, c.name]) == Some(c.schema) <==>
      LastWrite(schemas, job, c.ns) < i || Holds(SlotOf(schemas, job, c.ns), c.ns, c.name, c.schema)
  {
    EntryExact(schemas, host, job, c.ns, c.name, c.schema);
    ClaimsNameTheirNamespace(schemas[i], host);
    if LastWrite(schemas, job, c.ns) < i {
      ClaimStands(schemas, host, job, i, c, LastWrite(schemas, job, c.ns));
    }
  }

  // ----- names apart -----

  ghost function AllClaims(schemas: seq<GeneratedSchema>, host: Host): set<Claim> {
    set j, c | 0 <= j < |schemas| && c in Asked(schemas, host)[j] :: c
  }

  /** No root schema and no definition of one has the name. */
  ghost predicate NoRootName(schemas: seq<GeneratedSchema>, x: string) {
    forall i :: 0 <= i < |schemas| && schemas[i].namespace.None? ==> schemas[i].name != x && x !in LocalDefs(schemas[i].value)
  }

  lemma RewriteKeepsNames(v: Value, f: string -> string)
    ensures LocalDefs(MapRefs(v, f)).Keys == LocalDefs(v).Keys
  {
  }

  lemma NeverWritten(schemas: seq<GeneratedSchema>, job: Job, x: string)
    requires NoRootName(schemas, x)
    ensures LastWrite(schemas, job, x) == -1
  {
    var i := LastWrite(schemas, job, x);
    if i >= 0 {
      RewriteKeepsNames(schemas[i].value, Known(job.types));
    }
  }

  /** Where no root schema or definition has the namespace's name, each name in it holds exactly the one
      schema claimed for it. */
  lemma ApartNamesHoldTheirClaims(schemas: seq<GeneratedSchema>, host: Host, x: string, n: string, v: Value)
    requires Bundle(schemas, host).Ok? && NoRootName(schemas, x)
    ensures Claim(x, n, v) in AllClaims(schemas, host) <==>
      Lookup(Bundle(schemas, host).value, ["definitions", x, n]) == Some(v)
  {
    var job := JobOf(schemas, host);
    NeverWritten(schemas, job, x);
    EntryExact(schemas, host, job, x, n, v);
  }

  ghost predicate NamesApart(schemas: seq<GeneratedSchema>) {
    forall i :: 0 <= i < |schemas| && schemas[i].namespace.Some? ==> NoRootName(schemas, schemas[i].namespace.value)
  }

  lemma ApartSlot(schemas: seq<GeneratedSchema>, k: nat, job: Job, x: string)
    requires k <= |schemas| && NoRootName(schemas, x)
    ensures SlotOf(schemas[..k], job, x) == Slot(None, Behind(Asked(schemas[..k], job.host), -1, x))
  {
    assert NoRootName(schemas[..k], x);
    NeverWritten(schemas[..k], job, x);
  }

  lemma ApartAdmissible(schemas: seq<GeneratedSchema>, k: nat, job: Job)
    requires k < |schemas| && NamesApart(schemas) && Consistent(AllClaims(schemas, job.host))
    ensures Admissible(schemas, k, job)
  {
    var s := schemas[k];
    if Claims(s) {
      var x, asked := s.namespace.value, Asked(schemas, job.host);
      ApartSlot(schemas, k, job, x);
      ClaimsNameTheirNamespace(s, job.host);
      assert asked[k] == ClaimsOf(s, job.host);
      forall c: Claim, v | c in asked[k] && Holds(SlotOf(schemas[..k], job, x), x, c.name, v) ensures c.schema == v {
        var d := Claim(x, c.name, v);
        var j :| 0 <= j < k && d in Asked(schemas[..k], job.host)[j];
        assert d in asked[j] && d in AllClaims(schemas, job.host) && c in AllClaims(schemas, job.host);
      }
      assert forall c :: c in asked[k] ==> c in AllClaims(schemas, job.host);
    }
  }

  lemma AdmissibleAgree(schemas: seq<GeneratedSchema>, job: Job, i: nat, j: nat, c: Claim, d: Claim)
    requires i <= j < |schemas| && NamesApart(schemas) && Admissible(schemas, j, job)
    requires c in ClaimsOf(schemas[i], job.host) && d in ClaimsOf(schemas[j], job.host) && c.ns == d.ns && c.name == d.name
    ensures c.schema == d.schema
  {
    ClaimsNameTheirNamespace(schemas[i], job.host);
    ClaimsNameTheirNamespace(schemas[j], job.host);
    if i < j {
      ApartSlot(schemas, j, job, d.ns);
      assert c in Asked(schemas[..j], job.host)[i];
      assert Holds(SlotOf(schemas[..j], job, d.ns), d.ns, d.name, c.schema) by {
        assert c == Claim(d.ns, d.name, c.schema);
      }
    }
  }

  /** Where no root schema or definition is named like a namespace, bundling succeeds exactly when all
      claims agree. */
  lemma ApartBundlesSucceed(schemas: seq<GeneratedSchema>, host: Host)
    requires NamesApart(schemas)
    ensures Bundle(schemas, host).Ok? <==> Consistent(AllClaims(schemas, host))
  {
    var job := JobOf(schemas, host);
    BundlingExact(schemas, host, job);
    if Consistent(AllClaims(schemas, host)) {
      forall k: nat | k < |schemas| ensures Admissible(schemas, k, job) {
        ApartAdmissible(schemas, k, job);
      }
    }
    if AllAdmissible(schemas, |schemas|, job) {
      forall c, d | c in AllClaims(schemas, host) && d in AllClaims(schemas, host) && c.ns == d.ns && c.name == d.name
        ensures c.schema == d.schema
      {
        var i :| 0 <= i < |schemas| && c in Asked(schemas, host)[i];
        var j :| 0 <= j < |schemas| && d in Asked(schemas, host)[j];
        if i <= j {
          AdmissibleAgree(schemas, job, i, j, c, d);
        } else {
          AdmissibleAgree(schemas, job, j, i, d, c);
        }
      }
    }
  }

  lemma HeldByNone(schemas: seq<GeneratedSchema>, host: Host, job: Job, x: string, n: string)
    requires job == JobOf(schemas, host) && Bundle(schemas, host).Ok?
    requires forall v :: !Holds(SlotOf(schemas, job, x), x, n, v)
    ensures Lookup(Bundle(schemas, host).value, ["definitions", x, n]) == None
  {
    forall v ensures Lookup(Bundle(schemas, host).value, ["definitions", x, n]) != Some(v) {
      EntryExact(schemas, host, job, x, n, v);
    }
  }

  // ----- a namespace that is lost -----

  function Bare(namespace: Option<string>, name: string): GeneratedSchema {
    GeneratedSchema(namespace, name, Object(map[]), false)
  }

  lemma {:induction false} NothingForced(names: seq<string>, inV1: bool, types: map<string, string>)
    ensures ForcedRefs(names, map[], inV1, types) == []
  {
    if names != [] {
      NothingForced(names[..|names| - 1], inV1, types);
    }
  }

  lemma BareIsEmpty(f: string -> string)
    ensures MapRefs(Object(map[]), f) == Object(map[]) && LocalDefs(Object(map[])) == map[] && Body(Object(map[])) == Object(map[])
  {
  }

  lemma BareClaims(ns: string, name: string, host: Host)
    requires name !in IGNORED
    ensures ClaimsOf(Bare(Some(ns), name), host) == {Claim(ns, name, Object(map[]))}
  {
    BareIsEmpty(InNamespace(ns));
    assert Contributions(map[], ns, host) == map[];
    var own: map<string, Value> := map[name := Object(map[])];
    assert ClaimsFor(ns, map[]) == {};
    OneClaim(ns, name, Object(map[]), own);
  }

  lemma OneClaim(ns: string, name: string, v: Value, own: map<string, Value>)
    requires own == map[name := v]
    ensures ClaimsFor(ns, own) == {Claim(ns, name, v)}
  {
    assert name in own && Claim(ns, name, own[name]) in ClaimsFor(ns, own);
  }

  lemma BareWrites(name: string, job: Job)
    requires name !in IGNORED
    ensures RootWrites(Bare(None, name), job) == map[name := Object(map[])]
  {
    BareIsEmpty(Known(job.types));
    var none: map<string, Value> := map[];
    NothingForced(job.host.order(none.Keys), false, job.types);
    assert RootContributions(map[], false, job.types, job.host) == map[];
  }

  /** A root schema named like a namespace is accepted and wipes the namespace out. */
  lemma RootNameHidesNamespace(host: Host, schemas: seq<GeneratedSchema>)
    requires schemas == [Bare(Some("v2"), "A"), Bare(None, "v2")]
    ensures Bundle(schemas, host).Ok? && Claim("v2", "A", Object(map[])) in AllClaims(schemas, host)
    ensures Lookup(Bundle(schemas, host).value, ["definitions", "v2", "A"]) == None
  {
    var job := JobOf(schemas, host);
    BareClaims("v2", "A", host);
    assert Claim("v2", "A", Object(map[])) in Asked(schemas, host)[0];
    FirstIsAdmissible(schemas, job);
    assert AllAdmissible(schemas, 2, job);
    BundlingExact(schemas, host, job);
    OverwrittenSlot(schemas, job, "v2");
    HeldByNone(schemas, host, job, "v2", "A");
  }

  lemma FirstIsAdmissible(schemas: seq<GeneratedSchema>, job: Job)
    requires |schemas| > 0 && Claims(schemas[0]) && Consistent(ClaimsOf(schemas[0], job.host))
    ensures Admissible(schemas, 0, job)
  {
    assert schemas[..0] == [];
  }

  lemma OverwrittenSlot(schemas: seq<GeneratedSchema>, job: Job, x: string)
    requires schemas != [] && schemas[|schemas| - 1] == Bare(None, x) && x !in IGNORED
    ensures SlotOf(schemas, job, x) == Slot(Some(Object(map[])), {})
  {
    BareWrites(x, job);
    SlotGrows(schemas, job, x);
  }
}
