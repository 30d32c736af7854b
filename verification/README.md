# Codex: verified models of the schema exporter, the clients and the analytics reducer

A Dafny 4.11 project about the parts of the `codex-rs` workspace whose correctness is hardest to see from the code:

- the schema bundler and TypeScript filter of the app-server protocol: `$ref` rewriting (section 8.3 of JSON Schema
  draft-07 core), flattening, mark and sweep, pruning, and a hand-written scanner that splits and rejoins type text;
- the analytics reducer, an event-sourced state machine over seven maps, with its diff parser, dedupe sets and batching;
- the in-process event forwarder with its lossless and best-effort tiers and lag markers;
- the remote JSON-RPC worker and its handshake (response correlation and error codes of sections 5 and 5.1 of JSON-RPC 2.0).

`dafny verify dfyconfig.toml` checks everything.

## Layout

Each component has a file with its functions, which say what the code computes, and its methods, loops and classes, which
compute it the way the source does and are proved equal to those functions. The theorems are in files of their own.

- `Text`, `Json`, `JsonPaths`, `Protocol`, `References`, `Reachability`: strings, JSON trees and paths, identifiers,
  reference strings, graphs.
- `SchemaBundle`, `NamespaceTypes`, `BundleExact`, `BundleRefs`, `BundleReading`, `BundleClosed`, `BundleTidy`: bundling.
  `FlatSchema`, `FlatReading`, `FlatMeaning`: flattening.
- `MarkSweep`, `SweepMeaning`, `SweepReading`: stripping method variants. `Pruning`, `PruneReading`: dropping experimental
  variants.
- `Scanner`, `Lexing`, `Brackets`, `Splitting`: the scanner, splitting and joining. `ArmParser`, `Spans`, `Nesting`,
  `PropertyReading`: brace spans, literals and property names.
- `RequestFilter`, `ImportReading`, `RefilterImports`, `GeneratedUnion`: request unions. `FieldFilter`, `FieldRefilter`,
  `FieldImports`, `PrintedFields`: type fields. `FilterReading`: what both filters drop.
- `AcceptedLines`, `DiffReading`, `DiffRoundTrip`: the diff parser. `Dedupe`, `DedupeHistory`, `Batches`: the events client.
- `Forwarder`, `LagAccounting`, `ForwarderHistory`: the in-process forwarder.
- `RemoteWorker`, `RemoteReplies`, `RemoteEvents`, `RemoteHistory`: the remote client.
- `AnalyticsModel`, `FactTables`, `Reducer`, `ReducerState`: the reducer. `ReducerInvariants`, `TurnRuns`, `TurnOrder`,
  `DirectoryHistory`, `TurnHistory`, `ReviewHistory`, `EmissionHistory`: what its runs keep and put out.

The files named `...Reading` and `...History` state each operation a second time without its own helpers: by paths of
documents, by characters of texts, or by recursion on what happened. They say what the specification functions mean.

## Reading the statements

Runs are sequences of steps from the initial state, of any length and in any order, so a lemma over all sequences is a
statement about every reachable state. Several lemmas take the parts of an input as extra parameters with an equation for
each (`inner == Join(kept, ", ")`): these only give names to parts of the input and do not restrict it.

Seven promises turned out to hold only under a condition. Each has a counterexample and an exact condition:

- a flattened reference keeps its target unless a different definition of the same name wins (`FlatMeaning`);
- what a schema puts into a namespace stays there unless a root schema or root definition named like the namespace comes
  later and does not hold the same (`BundleExact`);
- the references of a bundle resolve unless one that was redirected to a schema of someone else does not find its path
  there (`BundleClosed`, `BundleTidy`);
- stripping leaves no dangling reference unless `$defs` or a nested definition map needs a definition nothing else needs
  (`SweepMeaning`);
- no experimental variant survives pruning unless an `enum` array holds one beside an experimental method (`Pruning`);
- a split undoes a join unless a part ends in a line comment whose newline was trimmed away (`Splitting`);
- a filtered body is found again unless a field ends in such a comment or its braces are out of step (`FieldRefilter`).

The comment at `codex-rs/app-server-client/src/lib.rs:161` says both transports share the delivery classifier. The remote
client uses an unbounded channel and no classifier, and the model follows the code.

What the code takes from outside is a parameter: the clock, the repository hash, the SHA-1 fingerprint, Unicode's
alphanumeric class, whether a write succeeds, which messages arrive, and the title annotation of schemas.

## Model

| member | source | states |
|---|---|---|
| `Json.RefsOfMapRefs` | codex-rs/app-server-protocol/src/export.rs:1188-1205 | rewriting every `$ref` of a tree gives exactly the rewritten references: none is missed, none is invented |
| `JsonPaths.RefsAreAtPaths` | codex-rs/app-server-protocol/src/export.rs:1138-1164 | the references of a document are exactly the strings under `$ref` keys that some JSON pointer path leads to |
| `JsonPaths.RewritingIsExact` | codex-rs/app-server-protocol/src/export.rs:1188-1205 | rewriting keeps every path and every scalar, and changes exactly the strings under `$ref` keys |
| `References.ToNamespaceIdempotent` | codex-rs/app-server-protocol/src/export.rs:1555-1587 | moving a reference into a namespace twice is the same as once, which the bundler relies on for nested definitions |
| `References.NamedKeepsNamespaced` | codex-rs/app-server-protocol/src/export.rs:1908-1933 | forcing one name into a namespace leaves references into other namespaces alone |
| `References.FlattenV2` | codex-rs/app-server-protocol/src/export.rs:1188-1205 | a `v2` reference, with whatever path behind it, loses its namespace and nothing else changes, unless the path holds another such reference |
| `Reachability.ReachableSetIsLeast` | codex-rs/app-server-protocol/src/export.rs:1166-1186 | a set that holds the start names, is closed under the edges and holds only reachable names is the least closed set |
| `FlatSchema.CollectDefinitionDependencies` | codex-rs/app-server-protocol/src/export.rs:1166-1186 | the worklist stops on cyclic and duplicate entries and returns exactly the names reachable through non-v2 references |
| `FlatSchema.BuildFlatV2Schema` | codex-rs/app-server-protocol/src/export.rs:1088-1136 | the imperative flattener returns what `FlatV2` returns, in every success and error case; `FlatReading` reads that off the bundle |
| `FlatReading.FlatDefinitionsRead` | codex-rs/app-server-protocol/src/export.rs:1088-1136 | for every accepted bundle: the names under `definitions` are all v2 names and the root names that a chain of references from a shared definition leads to, and each holds the flattened winner, a shared definition over v2 and v2 over any other |
| `FlatReading.FlatNames` | codex-rs/app-server-protocol/src/export.rs:1088-1136 | the same of the definition map before references are flattened |
| `FlatReading.FlatRootRead` | codex-rs/app-server-protocol/src/export.rs:1088-1136 | every other member of the bundle is kept with its references flattened, none is added, and the title is extended |
| `FlatReading.FlatErrors` | codex-rs/app-server-protocol/src/export.rs:1088-1104 | which bundles are refused before any reference is looked at: no object, no `definitions` object, no v2 object in it |
| `FlatReading.MissingAreRead` | codex-rs/app-server-protocol/src/export.rs:1234-1278 | the names a refused bundle is said to miss are exactly those that a path of the flat document references and no flat definition has |
| `FlatMeaning.FlatteningExact` | codex-rs/app-server-protocol/src/export.rs:1088-1278 | for every bundle with a v2 namespace: it is accepted if and only if each reference of the retained content, once flattened, is out of the namespace and names a retained definition, and which of the two checks fails otherwise |
| `FlatMeaning.FlatteningSucceeds` | codex-rs/app-server-protocol/src/export.rs:1088-1278 | a bundle whose local references resolve and keep to the two shapes is accepted by every check of the flattener |
| `FlatMeaning.FlattenedReferenceExact` | codex-rs/app-server-protocol/src/export.rs:1088-1278 | a retained reference finds the rewritten form of its old target in the flat document if and only if no different definition of the same name wins |
| `FlatMeaning.FlatteningKeepsMeaning` | codex-rs/app-server-protocol/src/export.rs:1088-1278 | without names defined both at the root and in v2, flattening succeeds and keeps the meaning of every retained reference |
| `FlatMeaning.SharedNameChangesMeaning` | codex-rs/app-server-protocol/src/export.rs:1088-1136 | counterexample: a root name that v2 defines differently is accepted, and its reference silently changes target |
| `SchemaBundle.InsertDefinitions` | codex-rs/app-server-protocol/src/export.rs:1280-1323 | inserting nested definitions one at a time, in any map order, gives the merged namespace, or the collision error exactly when two disagree |
| `SchemaBundle.InsertRootDefinitions` | codex-rs/app-server-protocol/src/export.rs:1014-1048 | the root branch of the loop: nested definitions go to their namespace or to the root, as the specification says |
| `SchemaBundle.CollectNamespacedTypes` | codex-rs/app-server-protocol/src/export.rs:1616-1636 | the loop returns `NamespacedTypes`: the first namespaced schema to mention a name, as its own or as a definition, gives the namespace (`NamespaceTypes.TypesAreFirstMentions`) |
| `NamespaceTypes.TypesAreFirstMentions` | codex-rs/app-server-protocol/src/export.rs:1616-1636 | a name has a namespace if and only if some namespaced schema is named so or has it as a key under `definitions` or `$defs`, and it is that of the first such schema |
| `NamespaceTypes.NamespaceForExact` | codex-rs/app-server-protocol/src/export.rs:1638-1650 | a definition lives in the namespace of its name if that is mentioned, or else of its name without trailing digits |
| `SchemaBundle.BuildSchemaBundle` | codex-rs/app-server-protocol/src/export.rs:993-1074 | the imperative bundler returns what `Bundle` returns, for every list of schemas |
| `BundleReading.ClaimsRead` | codex-rs/app-server-protocol/src/export.rs:1004-1013 | a namespaced schema brings its own body and each definition that is copied, references moved into the namespace, and nothing else |
| `BundleReading.WritesRead` | codex-rs/app-server-protocol/src/export.rs:1014-1048 | a root schema writes its own name and each definition that is copied and lives in no namespace, or all of them in a v1 schema |
| `BundleReading.NamespacedContents` | codex-rs/app-server-protocol/src/export.rs:993-1074 | what a namespaced schema brought is found in the finished bundle under its namespace and name, unless a later root schema has or defines the name of the namespace |
| `BundleReading.NamespacedNames` | codex-rs/app-server-protocol/src/export.rs:993-1074 | and no other name is in the namespace |
| `BundleReading.RootNames` | codex-rs/app-server-protocol/src/export.rs:993-1074 | a name is at the root of the bundle if and only if a root schema writes it or it is a namespace; a definition that lives in a namespace is not written there |
| `BundleReading.RootContents` | codex-rs/app-server-protocol/src/export.rs:1014-1048 | what a root name holds: the body of the last root schema of that name, or the definition of the last root schema to define it, references redirected |
| `BundleReading.KnownReads` | codex-rs/app-server-protocol/src/export.rs:1589-1612 | how a reference of a root schema is spelled: into the namespace its first name lives in, if any, and as it was otherwise |
| `BundleReading.BodyReferenceReads` | codex-rs/app-server-protocol/src/export.rs:1014-1048 | the spelling in the body, after the schema's own definitions are forced into their namespaces |
| `BundleReading.RootReferenceReads` | codex-rs/app-server-protocol/src/export.rs:1014-1048 | a reference of a root schema to a name that lives in a namespace reads `#/definitions/<namespace>/<name>` in the finished bundle |
| `BundleExact.BundlingExact` | codex-rs/app-server-protocol/src/export.rs:993-1074 | for every list of schemas: bundling succeeds if and only if the claims of each namespaced schema fit what the schemas before it left in its namespace, and then every entry under `definitions` shows the last root schema that wrote it and the claims made on it since |
| `BundleExact.BundlingError` | codex-rs/app-server-protocol/src/export.rs:1280-1323 | which error is reported: that of the first schema whose claims do not fit, and whether its namespace is not an object or holds something else under a claimed name |
| `BundleExact.EntryExact` | codex-rs/app-server-protocol/src/export.rs:993-1074 | a name in a namespace of the finished bundle holds a schema if and only if it was claimed since the last root write of the namespace, or that write brought it along |
| `BundleExact.ClaimSurvives` | codex-rs/app-server-protocol/src/export.rs:1014-1048 | a claim is still in the finished bundle if and only if no later root schema or root definition wrote over its namespace, or what came afterwards holds the same schema again |
| `BundleExact.ApartBundlesSucceed` | codex-rs/app-server-protocol/src/export.rs:993-1074 | when no root schema or root definition is named like a namespace: bundling succeeds if and only if all claims agree, whatever the order of the schemas |
| `BundleExact.ApartNamesHoldTheirClaims` | codex-rs/app-server-protocol/src/export.rs:993-1074 | each name of such a namespace then holds exactly the one schema claimed for it |
| `BundleExact.RootNameHidesNamespace` | codex-rs/app-server-protocol/src/export.rs:1014-1048 | counterexample: a root schema named like a namespace is accepted and wipes the namespace out |
| `BundleRefs.RootRefs` | codex-rs/app-server-protocol/src/export.rs:1014-1048 | the references of what a root schema writes are exactly those of the part it writes, redirected to the namespaces of their types |
| `BundleClosed.MovedRefLands` | codex-rs/app-server-protocol/src/export.rs:1555-1587 | a reference of a namespaced schema, of any length, that is moved along with its target always finds it in the bundle |
| `BundleClosed.BundlingIsClosed` | codex-rs/app-server-protocol/src/export.rs:993-1074 | if every input resolves its own references, of any length: every local reference of the finished bundle resolves if and only if the redirected references of root schemas, and those of namespaced schemas that are not moved along with their target, name something in the last writes and claims |
| `BundleTidy.TidyBundlesAreClosed` | codex-rs/app-server-protocol/src/export.rs:993-1074 | a condition on the inputs alone: plain names, no root name of a namespace, no digit-suffixed alias, and tails that every schema of the same name has; then every local reference of the bundle resolves |
| `BundleTidy.TailIsLost` | codex-rs/app-server-protocol/src/export.rs:1589-1612 | counterexample: two schemas that resolve their own references are accepted, and a redirected reference loses the target of its tail |
| `MarkSweep.ReachableLocalDefinitions` | codex-rs/app-server-protocol/src/export.rs:1430-1445 | the marking loop stops and marks exactly the definitions reachable from references outside the definition maps |
| `MarkSweep.Mark` | codex-rs/app-server-protocol/src/export.rs:1472-1514 | the recursive collector queues exactly the new local definition names and marks exactly the targets of the tree's references |
| `MarkSweep.MarkOutsideMaps` | codex-rs/app-server-protocol/src/export.rs:1447-1470 | the same for references outside `definitions` and `$defs` at any depth |
| `MarkSweep.StripMethodVariants` | codex-rs/app-server-protocol/src/export.rs:1394-1412 | the imperative strip returns what `Strip` returns |
| `SweepReading.VariantGoesExactly` | codex-rs/app-server-protocol/src/export.rs:1414-1428 | a variant goes if and only if the string under `properties`, `method`, `const`, or without one the first entry of its `enum`, is one of the methods |
| `SweepReading.VariantsStayInOrder` | codex-rs/app-server-protocol/src/export.rs:1394-1412 | what is kept of two lists of variants is what is kept of each, in order |
| `SweepReading.OutsideAreAtPaths` | codex-rs/app-server-protocol/src/export.rs:1447-1470 | the references marking starts from are exactly those a path without a `definitions` or `$defs` step leads to |
| `SweepReading.StrippedReads` | codex-rs/app-server-protocol/src/export.rs:1394-1445 | the whole operation by names and paths: a definition stays, unchanged, if and only if a chain of references from outside the maps leads to it; nothing else changes but the variants |
| `SweepMeaning.SweepIsExact` | codex-rs/app-server-protocol/src/export.rs:1394-1445 | the retained definitions are exactly those reachable, in the old graph and in the graph that is left, and they are unchanged |
| `SweepMeaning.RetainedRefsKeepTargets` | codex-rs/app-server-protocol/src/export.rs:1394-1514 | no reference outside the maps or inside a retained definition loses its target |
| `SweepMeaning.StripLeavesNothingDangling` | codex-rs/app-server-protocol/src/export.rs:1394-1514 | the whole stripped schema has no newly dangling reference if and only if every definition named inside `$defs` or nested `definitions` is reachable from the references outside all maps |
| `SweepMeaning.NothingHiddenNothingDangles` | codex-rs/app-server-protocol/src/export.rs:1394-1514 | a condition on the input alone: without local references in those other maps nothing dangles, whatever methods are stripped |
| `SweepMeaning.SkippedMapCanDangle` | codex-rs/app-server-protocol/src/export.rs:1447-1470 | counterexample: a definition only `$defs` needs is swept away and the reference to it dangles |
| `SweepMeaning.StripTwice` | codex-rs/app-server-protocol/src/export.rs:1394-1412 | stripping twice is the same as once |
| `Pruning.PruneExperimentalMethods` | codex-rs/app-server-protocol/src/export.rs:503-527 | the imperative pruner returns what `Prune` returns, arrays filtered before their items are visited |
| `PruneReading.ExperimentalExactly` | codex-rs/app-server-protocol/src/export.rs:529-552 | an array item goes if and only if its `const`, or without one the only entry of its `enum`, is one of the methods |
| `PruneReading.PruningIsExact` | codex-rs/app-server-protocol/src/export.rs:503-527 | everything whose path is free of such items is found after pruning at the path with the lowered indices, scalars unchanged, and nothing else is there |
| `Pruning.PrunedIsExperimental` | codex-rs/app-server-protocol/src/export.rs:512-552 | pruning makes an array item an experimental variant exactly when it was one or hid one in its `enum` |
| `Pruning.PruningLeavesNone` | codex-rs/app-server-protocol/src/export.rs:503-552 | no experimental variant remains anywhere if and only if no retained array item hides one |
| `Pruning.PruningIsComplete` | codex-rs/app-server-protocol/src/export.rs:503-552 | in schemas whose `enum` arrays hold strings, no experimental variant remains |
| `Pruning.PruningTwice` | codex-rs/app-server-protocol/src/export.rs:503-527 | pruning twice is the same as once, under that condition |
| `Pruning.HiddenVariantRemains` | codex-rs/app-server-protocol/src/export.rs:512-527 | counterexample: an `enum` that shrinks to one experimental method after its array was filtered |
| `Scanner.ScanState.ObserveChar` | codex-rs/app-server-protocol/src/export.rs:906-972 | the mutable scanner takes the same step as the function `Observe`, which `Lexing.CuttableExactly` ties to literals, comments and bracket counts |
| `Scanner.SplitTopLevel` | codex-rs/app-server-protocol/src/export.rs:769-792 | the splitting loop returns the trimmed, non-empty pieces between top-level delimiters |
| `Lexing.CuttableExactly` | codex-rs/app-server-protocol/src/export.rs:895-991 | a specification that does not run the scan: a text ends where a delimiter cuts if and only if it is made of complete code characters, string literals and comments, and its code leaves no bracket of any of the four kinds open |
| `Lexing.LevelIsEvenCount` | codex-rs/app-server-protocol/src/export.rs:906-972 | for code that closes nothing it has not opened, leaving none open is having as many closing as opening brackets |
| `Lexing.SplitExactly` | codex-rs/app-server-protocol/src/export.rs:769-792 | the split is exactly the text between the delimiters that stand outside strings, comments and brackets, trimmed, empty pieces dropped |
| `Brackets.BracketedIsUncut` | codex-rs/app-server-protocol/src/export.rs:769-792 | whatever balanced text with strings and comments stands between brackets, nothing in it cuts |
| `Splitting.SplitIsJoinable` | codex-rs/app-server-protocol/src/export.rs:773-792 | every part a split produces is trimmed, has no top-level delimiter and settles unless it ends in a line comment |
| `Splitting.SplitUndoesJoin` | codex-rs/app-server-protocol/src/export.rs:316-339 | splitting a join returns the parts if and only if none but the last ends in a line comment |
| `Splitting.SelectionResplits` | codex-rs/app-server-protocol/src/export.rs:316-339 | for every text: any selection of its parts comes back from their join under exactly that condition, and selecting again keeps the same parts |
| `Splitting.LineCommentSwallows` | codex-rs/app-server-protocol/src/export.rs:895-977 | counterexample: two parts of a split whose join splits into one, because the first ends in a line comment |
| `ArmParser.FindTopLevelBraceSpan` | codex-rs/app-server-protocol/src/export.rs:750-767 | the brace scan returns what `BraceSpan` returns |
| `ArmParser.BraceSpanBounds` | codex-rs/app-server-protocol/src/export.rs:750-767 | a span opens at a `{` strictly before the `}` it closes at |
| `Spans.BraceSpanExactly` | codex-rs/app-server-protocol/src/export.rs:750-767 | the braces found are the first closing one that leaves nothing open behind an opening one at top level, and the last such opening one; none are found exactly when there is no such pair |
| `ArmParser.ParseStringLiteral` | codex-rs/app-server-protocol/src/export.rs:866-889 | the literal loop returns the text up to the first unescaped closing quote |
| `PropertyReading.StringLiteralExactly` | codex-rs/app-server-protocol/src/export.rs:866-889 | the literal read is exactly the one the text starts with: a quote, a body that does not close it, the quote |
| `PropertyReading.PropertyNameExactly` | codex-rs/app-server-protocol/src/export.rs:830-864 | the property name read is exactly the literal or word that stands before a colon, a question mark allowed |
| `ArmParser.ExtractMethodFromArm` | codex-rs/app-server-protocol/src/export.rs:794-809 | the method of an arm is that of its first field named `method` |
| `PropertyReading.MethodExactly` | codex-rs/app-server-protocol/src/export.rs:794-815 | the method is the literal behind the colon of the first field named `method`, if and only if there is one |
| `FilterReading.ArmGoesExactly` | codex-rs/app-server-protocol/src/export.rs:316-339 | on any text: an arm goes if and only if it has a method, which is one of the experimental ones and not empty |
| `FilterReading.RequestsFilteredExactly` | codex-rs/app-server-protocol/src/export.rs:316-339 | the request filter on any file: which file is left alone, and what the new union and its imports are |
| `RequestFilter.FilterRequestTsContents` | codex-rs/app-server-protocol/src/export.rs:316-339 | the imperative filter returns what `FilterRequestTs` returns |
| `RequestFilter.PruneUnusedTypeImports` | codex-rs/app-server-protocol/src/export.rs:666-683 | exactly the lines stay that import no single type or import one that is used |
| `ImportReading.ImportedNameExactly` | codex-rs/app-server-protocol/src/export.rs:685-694 | a line imports a single type if and only if it has the form `import type { Name } from`, and under that name |
| `ImportReading.LineDroppedExactly` | codex-rs/app-server-protocol/src/export.rs:666-683 | a line is dropped if and only if it imports a single type whose name occurs nowhere in the rest |
| `ImportReading.AliasExactly` | codex-rs/app-server-protocol/src/export.rs:721-731 | a file splits at its first `=` and its last `;`, if and only if they stand in that order |
| `RequestFilter.FilteredUnionResplits` | codex-rs/app-server-protocol/src/export.rs:316-339 | a filtered union re-splits to exactly the kept arms, in order, if and only if none but the last ends in a line comment; refiltering then changes nothing |
| `RefilterImports.FilteringTwice` | codex-rs/app-server-protocol/src/export.rs:316-339 | on a generated file the whole filter, imports included, is idempotent under that condition |
| `GeneratedUnion.ArmReadsBack` | codex-rs/app-server-protocol/src/export.rs:794-893 | the method read from a printed arm is the one printed, whatever its other fields hold |
| `GeneratedUnion.GeneratedUnionFiltered` | codex-rs/app-server-protocol/src/export.rs:316-339 | filtering a printed union leaves the union of the arms whose methods are not experimental, in order, and prunes the imports that union does not use |
| `GeneratedUnion.GeneratedFileFiltered` | codex-rs/app-server-protocol/src/export.rs:316-339 | in a generated file exactly those arms go, and exactly the import lines above them that no other arm uses |
| `Nesting.SpanOfReplaced` | codex-rs/app-server-protocol/src/export.rs:750-767 | whatever text is put between the found braces, they are found around it if and only if the search notes nothing in it and it leads back to top level |
| `FieldFilter.FilterExperimentalTypeFields` | codex-rs/app-server-protocol/src/export.rs:381-406 | the imperative field filter returns what `FilterFields` returns |
| `FieldFilter.TypeBodyBraceSpan` | codex-rs/app-server-protocol/src/export.rs:733-748 | the span found behind the first `=`, or else behind the interface marker |
| `FieldFilter.StripLeadingBlockComments` | codex-rs/app-server-protocol/src/export.rs:817-828 | the loop drops leading blanks and closed block comments until none is left |
| `FilterReading.BodyExactly` | codex-rs/app-server-protocol/src/export.rs:733-748 | the body is the pair of braces behind the first `=`, or without one behind the first interface marker |
| `FilterReading.UncommentedExactly` | codex-rs/app-server-protocol/src/export.rs:817-828 | leading comments are passed over one by one, as many as there are |
| `FilterReading.FieldGoesExactly` | codex-rs/app-server-protocol/src/export.rs:381-406 | a field goes if and only if, behind its comments, it names one of the experimental properties |
| `FieldImports.AnyFileFiltered` | codex-rs/app-server-protocol/src/export.rs:381-406 | the field filter on any file with a body: the kept fields in order, and the imports the rest uses |
| `PrintedFields.PrintedTypeFiltered` | codex-rs/app-server-protocol/src/export.rs:381-406 | on a printed type, alias or interface, whose field types hold any balanced brackets, strings and comments: exactly the named fields go, and the imports nothing else uses |
| `FieldRefilter.KeptFieldsComeBack` | codex-rs/app-server-protocol/src/export.rs:381-406 | for every file with a body: after filtering the body is found where it was put and splits into exactly the kept fields if and only if no kept field ends in a line comment and the last leaves no brace open that the others do not close |
| `FieldRefilter.OwnBracesBalance` | codex-rs/app-server-protocol/src/export.rs:381-406 | bodies that close only braces they open satisfy the second condition, whichever fields are dropped |
| `FieldRefilter.BraceLeftOpen` | codex-rs/app-server-protocol/src/export.rs:381-406 | counterexample: in a body whose braces are out of step, dropping one field leaves a brace of the next open and the body is not found again |
| `FieldImports.FieldFilteringTwice` | codex-rs/app-server-protocol/src/export.rs:381-406 | on a generated file the whole field filter, imports included, is idempotent under that condition |
| `AcceptedLines.AcceptedLineFingerprints` | codex-rs/analytics/src/accepted_lines.rs:30-83 | the parser loop returns what the line-by-line specification `Parse` returns |
| `DiffReading.AnyDiffReads` | codex-rs/analytics/src/accepted_lines.rs:30-83 | on any text, without parser state: which lines count as added and deleted, by their first character and the hunk and file starts above them, and one fingerprint list in order under the path last named |
| `DiffReading.PathsAreStripped` | codex-rs/analytics/src/accepted_lines.rs:143-155 | blanks around a path do not matter, the null device is none, and one leading `a/` or `b/` goes |
| `DiffReading.LineFingerprint` | codex-rs/analytics/src/accepted_lines.rs:157-169 | however an added line is spaced: it has a fingerprint if and only if its words, one blank apart, take four bytes or more and hold a letter, digit or underscore |
| `AcceptedLines.ParseIgnoresCr` | codex-rs/analytics/src/accepted_lines.rs:30-83 | a carriage return at the end of a line changes neither the counts nor the fingerprints |
| `AcceptedLines.NormalizedTwice` | codex-rs/analytics/src/accepted_lines.rs:157-169 | normalising a line twice is the same as once |
| `DiffRoundTrip.PrintedDiffReadsBack` | codex-rs/analytics/src/accepted_lines.rs:30-83 | parsing the printed text of any git-style diff returns the exact counts, and the fingerprints of effective added lines in order under their own file's path |
| `Dedupe.EventsQueue.ShouldEnqueueAppUsed` | codex-rs/analytics/src/client.rs:146-162 | a key is admitted when it is new; a full set is cleared first; app facts without a connector are always admitted and not recorded |
| `Dedupe.EventsQueue.ShouldEnqueuePluginUsed` | codex-rs/analytics/src/client.rs:164-177 | the same for plugin keys |
| `DedupeHistory.AdmittedExactly` | codex-rs/analytics/src/client.rs:146-177 | after any calls a key is admitted if and only if it is not among the admissions of the current round of 4096 |
| `Dedupe.RunInvariant` | codex-rs/analytics/src/client.rs:146-177 | over every call sequence the set stays within 4096 keys and no key is admitted twice between clears |
| `Dedupe.AdmissionBound` | codex-rs/analytics/src/client.rs:146-177 | admissions of any one key are at most 1 + (all admissions) / 4096 |
| `Batches.TrackEventRequestBatches` | codex-rs/analytics/src/client.rs:519-540 | all events in order, none lost, no empty request, isolated events alone, and no two requests that could be one |
| `Batches.BatchingIsUnique` | codex-rs/analytics/src/client.rs:519-540 | there is only one batching with these properties |
| `Forwarder.ForwarderTask.ForwardStep` | codex-rs/app-server-client/src/lib.rs:196-262 | one step of forwarding an event: send, wait, count a drop, announce a lag or reject a dropped request; the task stays in the state of `Run` on its history |
| `Forwarder.ForwarderTask.NextEvent` | codex-rs/app-server-client/src/lib.rs:483-590 | the worker takes an event from the runtime only while its stream is enabled |
| `Forwarder.ForwarderTask.ReceiveEvent` | codex-rs/app-server-client/src/lib.rs:747-749 | the consumer takes the oldest event of the channel |
| `Forwarder.ForwarderTask.CloseReceiver` | codex-rs/app-server-client/src/lib.rs:755-766 | shutting down drops the receiver and what is left in the channel |
| `ForwarderHistory.DeliveryByKind` | codex-rs/app-server-client/src/lib.rs:139-180 | the lossless tier kind by kind |
| `ForwarderHistory.RunsAreRecords` | codex-rs/app-server-client/src/lib.rs:196-262 | in every run the channel, the drops, the rejections and the refusals are those of a bare log: a full channel holds up a lossless event and loses any other, and with room the drops since the last marker are announced before the event goes out |
| `ForwarderHistory.TasksAreRecords` | codex-rs/app-server-client/src/lib.rs:483-590 | the same of every task object |
| `LagAccounting.ExactLagAccounting` | codex-rs/app-server-client/src/lib.rs:196-262 | in every run a delivered event's input index is the events delivered before it plus the drops announced before it; unannounced drops equal the skip counter |
| `LagAccounting.LosslessInOrder` | codex-rs/app-server-client/src/lib.rs:139-262 | every lossless event whose forward is over was delivered, in input order, and the consumer sees exactly the channel's record |
| `LagAccounting.ServerRequestsAnswered` | codex-rs/app-server-client/src/lib.rs:196-262 | each server request whose forward is over was delivered or rejected, never both, never neither |
| `LagAccounting.SilentAfterClose` | codex-rs/app-server-client/src/lib.rs:543-590 | once the receiver is gone nothing more is sent, every forward ends the stream, and at most one further event is taken |
| `LagAccounting.TasksAccountForLag` | codex-rs/app-server-client/src/lib.rs:196-262 | the accounting and the lossless tier hold of every task object, whatever happened to it |
| `RemoteWorker.WorkerTask.OnCommand` | codex-rs/app-server-client/src/remote.rs:221-317 | the command arm of the loop has exactly the effect of `Step`, and leaves the task in the state of `Run` on its history, which `RemoteHistory` reads off the history alone |
| `RemoteWorker.WorkerTask.OnMessage` | codex-rs/app-server-client/src/remote.rs:319-462 | the stream arm of the loop has exactly the effect of `Step`, and leaves the task in the state of `Run` on its history |
| `RemoteWorker.WorkerTask.OnCommandsClosed` | codex-rs/app-server-client/src/remote.rs:221-225 | when every handle is gone the loop ends without a `Disconnected` event and every waiter is told |
| `RemoteWorker.WorkerTask.OnConsumerDropped` | codex-rs/app-server-client/src/remote.rs:945-955 | when the event receiver is gone later events are not delivered |
| `RemoteWorker.AnswerPending` | codex-rs/app-server-client/src/remote.rs:464-475 | after the loop every pending waiter, and nobody else, is told the worker is gone, once |
| `RemoteHistory.RunIsHistory` | codex-rs/app-server-client/src/remote.rs:216-475 | in every run, from its actions alone: when the loop is over, and the messages written, events told and commands taken, in order: one request per id nobody waits under, one message per notification and answer, one refusal per unknown server request, and nothing else |
| `RemoteHistory.AnswersAreHistory` | codex-rs/app-server-client/src/remote.rs:216-475 | every waiter is sent exactly what its history says: a refusal of a duplicate, the outcome of the write, the server's answer, or the error of what ended the loop |
| `RemoteHistory.WritesAreConfirmed` | codex-rs/app-server-client/src/remote.rs:262-317 | a notification, an answer and a shutdown are answered `Done` if and only if the write succeeded |
| `RemoteHistory.EndTellsEverybody` | codex-rs/app-server-client/src/remote.rs:464-475 | whatever ends the loop gives its own error to everybody still waiting |
| `RemoteHistory.TasksFollowHistory` | codex-rs/app-server-client/src/remote.rs:213-475 | the same of every task object |
| `RemoteReplies.RunIsSound` | codex-rs/app-server-client/src/remote.rs:216-475 | every run keeps the invariant: pending entries are the requests still waiting, every other waiter has exactly one reply |
| `RemoteReplies.ExactlyOneReply` | codex-rs/app-server-client/src/remote.rs:216-475 | no command is answered twice, and when the worker has left its loop every command it took has been answered once |
| `RemoteReplies.TasksReplyOnce` | codex-rs/app-server-client/src/remote.rs:216-475 | the same of every task object, whatever happened to it |
| `RemoteReplies.PendingIsOutstanding` | codex-rs/app-server-client/src/remote.rs:216-332 | the pending map is exactly the unanswered requests of the history |
| `RemoteReplies.DuplicateIsRefused` | codex-rs/app-server-client/src/remote.rs:227-240 | a second request under a waiting id is refused with nothing written, and the first waiter stays registered |
| `RemoteReplies.ServerRepliesReachTheirWaiter` | codex-rs/app-server-client/src/remote.rs:323-332 | a server result or error reaches a waiter if and only if it arrived while that waiter was the one registered under its id |
| `RemoteEvents.InitializeConnection` | codex-rs/app-server-client/src/remote.rs:794-936 | how the handshake ends in every case, which events it buffers and what it writes, in order |
| `RemoteEvents.Connect` | codex-rs/app-server-client/src/remote.rs:194-211 | a client exists exactly when the handshake succeeded, and starts with the events it buffered |
| `RemoteEvents.RemoteClient.NextEvent` | codex-rs/app-server-client/src/remote.rs:593-598 | events buffered by the handshake come before those of the channel, each once; what was returned and what is ahead is always all that was given |
| `RemoteEvents.LiveEventsInOrder` | codex-rs/app-server-client/src/remote.rs:319-462 | the live loop delivers the recognised messages in wire order, then at most one `Disconnected`, after which it is over |
| `RemoteEvents.EventsFollowTheWire` | codex-rs/app-server-client/src/remote.rs:319-462 | over one stream, read by the handshake and then by the live loop: what the client was given is exactly the recognised messages of the stream in order, as far as it was read while somebody consumed, then at most one `Disconnected`; what `next_event` returned is a prefix of that |
| `RemoteEvents.UnknownRequestsRefused` | codex-rs/app-server-client/src/remote.rs:345-391 | one attempted -32601 error per unrecognised server request read, in order, and no other |
| `RemoteEvents.RefusalsFollowTheWire` | codex-rs/app-server-client/src/remote.rs:819-917 | the same over one stream, handshake included |
| `ReducerState.AnalyticsReducer.constructor` | codex-rs/analytics/src/reducer.rs:146-155 | the seven maps start empty, the state of the empty run |
| `ReducerState.AnalyticsReducer.Ingest` | codex-rs/analytics/src/reducer.rs:406-534 | one fact changes the seven maps and puts out events exactly as `Step` says, so maps and events stay those of `Run` on everything ingested |
| `ReducerState.AnalyticsReducer.IngestSubagentThreadStarted` | codex-rs/analytics/src/reducer.rs:561-587 | a sub-agent's thread keeps known metadata and connection and otherwise takes its parent's connection |
| `ReducerState.AnalyticsReducer.EmitThreadInitialized` | codex-rs/analytics/src/reducer.rs:1293-1342 | a thread is recorded with its connection and metadata, unless the connection is unknown |
| `ReducerState.AnalyticsReducer.MaybeEmitTurnEvent` | codex-rs/analytics/src/reducer.rs:1561-1619 | a turn with all its parts and a known context is reported and removed; otherwise nothing changes |
| `ReducerState.AnalyticsReducer.IngestTurnFact` | codex-rs/analytics/src/reducer.rs:643-690 | the facts and notifications that fill in a turn, each followed by a report where the source tries one |
| `ReducerState.AnalyticsReducer.IngestTurnStartResponse` | codex-rs/analytics/src/reducer.rs:885-902 | the response takes the request off the map whatever its kind and fills in the turn only for a turn start |
| `ReducerState.AnalyticsReducer.IngestTurnSteerResponse` | codex-rs/analytics/src/reducer.rs:1428-1451 | the response takes the request, counts the steer for a known turn and reports it where a context is known |
| `ReducerState.AnalyticsReducer.IngestErrorResponse` | codex-rs/analytics/src/reducer.rs:1114-1162 | only a steer request is reported as rejected |
| `ReducerState.AnalyticsReducer.IngestToolFact` | codex-rs/analytics/src/reducer.rs:913-1112 | item starts, approval requests, their answers and guardian reviews act on the three tool maps as `ToolStep` says |
| `ReducerState.AnalyticsReducer.RecordItemReviewSummary` | codex-rs/analytics/src/reducer.rs:1542-1559 | one more review in the summary: counts, final outcome and OR-ed flags |
| `ReducerState.AnalyticsReducer.EmitReviewEvent` | codex-rs/analytics/src/reducer.rs:1494-1540 | the review is counted for its item before its own event is sent or dropped |
| `ReducerState.AnalyticsReducer.IngestItemCompleted` | codex-rs/analytics/src/reducer.rs:1187-1249 | the tool is counted whenever the turn is known; the summary is used up only with a start, a valid end and a context; the event it then puts out is that of `EmissionHistory.ItemEventsAreHistory` |
| `ReducerState.AnalyticsReducer.ThreadContextOrWarn` | codex-rs/analytics/src/reducer.rs:1621-1657 | the context needs a connection id, an initialised connection and metadata |
| `ReducerState.ReducersKeepHistory` | codex-rs/analytics/src/reducer.rs:406-534 | of every reducer object, whatever it ingested: its events, turns and threads are what their histories say |
| `ReducerInvariants.ContextMissingExactly` | codex-rs/analytics/src/reducer.rs:1621-1657 | in every reachable state a context is missing if and only if the thread is unknown or has no connection id |
| `ReducerInvariants.RunIsSound` | codex-rs/analytics/src/reducer.rs:1293-1342 | every run keeps: each known thread has metadata and its connection id, if set, names an initialised connection |
| `ReducerInvariants.ToolCountsAddUp` | codex-rs/analytics/src/reducer.rs:366-403 | in every turn event of every run the tool counts by kind add up to the total |
| `TurnRuns.NonInterference` | codex-rs/analytics/src/reducer.rs:1561-1619 | runs that agree on the facts touching a turn put out the same events for it |
| `TurnRuns.OtherTurnsDoNotInterfere` | codex-rs/analytics/src/reducer.rs:1164-1291 | deleting every notification and custom turn fact that names another turn leaves the turn's events unchanged |
| `TurnRuns.EmissionBound` | codex-rs/analytics/src/reducer.rs:1561-1619 | in every run a turn is reported at most as often as each of config, profile and completion was supplied, once less while the part is still held |
| `TurnOrder.AnyOrderReportsOnce` | codex-rs/analytics/src/reducer.rs:643-679 | config, profile and completion in any order, among facts that do not concern the turn, give exactly one event, at the third, with the same payload |
| `TurnHistory.TurnsAreHistory` | codex-rs/analytics/src/reducer.rs:643-690 | in every run the state kept for a turn is the latest fact of each kind, and the count of steers and tools, since its last report |
| `DirectoryHistory.ConnectionsAreHistory` | codex-rs/analytics/src/reducer.rs:536-559 | in every run a connection is the one last initialised under its id |
| `DirectoryHistory.ThreadsAreHistory` | codex-rs/analytics/src/reducer.rs:561-587 | in every run a thread is known exactly when it was opened on a known connection or started as a sub-agent; its connection and metadata are those of the last opening, or else the first connection inherited and the first start |
| `TurnHistory.TurnReportsAreHistory` | codex-rs/analytics/src/reducer.rs:2518-2645 | every field of every turn event is that latest fact or count, its connection and metadata included; an error fact settles the thread only when no other fact names one |
| `ReviewHistory.PendingIsHistory` | codex-rs/analytics/src/reducer.rs:913-1112 | the pending reviews are those last asked for under an id and not answered since |
| `ReviewHistory.SummariesAreHistory` | codex-rs/analytics/src/reducer.rs:1494-1559 | a summary is kept for exactly the items with unused terminal reviews, and its counts, flags and outcome are those of the list |
| `ReviewHistory.ToolEventsCarryHistory` | codex-rs/analytics/src/reducer.rs:1187-1249 | in every run a tool event's review fields equal those computed from its item's terminal reviews since the summary was last used up, dropped review events included |
| `FactTables.OutcomesAreEnds` | codex-rs/analytics/src/reducer.rs:1730-2060 | a tool item has an outcome if and only if it is not under way, and its status, failure kind, duration and name are those of a table by item kind and status |
| `FactTables.AnswersDecide` | codex-rs/analytics/src/reducer.rs:2135-2192 | what an answer decides and which final approval it leaves; denied if and only if it declines |
| `FactTables.GuardiansDecide` | codex-rs/analytics/src/reducer.rs:2194-2212 | the same of a guardian's status; one still in progress decides nothing |
| `FactTables.AskOpensReview` | codex-rs/analytics/src/reducer.rs:913-1027 | the review an approval request opens: subject, name, trigger and flags by one rule |
| `FactTables.GuardianDescribesReview` | codex-rs/analytics/src/reducer.rs:2214-2300 | the review a guardian's action describes, by the same rule |
| `EmissionHistory.RequestsAreHistory` | codex-rs/analytics/src/reducer.rs:612-641 | a pending request is the one last made under its id and not answered since |
| `EmissionHistory.TurnsAreLogs` | codex-rs/analytics/src/reducer.rs:1561-1619 | when a turn is reported, decided from the facts alone |
| `EmissionHistory.StartsAreHistory` | codex-rs/analytics/src/reducer.rs:1170-1234 | the start of an item is its last valid one that no end in a known turn has taken |
| `EmissionHistory.SummariesAreEndings` | codex-rs/analytics/src/reducer.rs:1494-1559 | the summary of an item is that of the reviews ended since an end of it was last reported, read off asks, answers and guardian notifications |
| `EmissionHistory.ItemEventsAreHistory` | codex-rs/analytics/src/reducer.rs:1187-1249 | a completed item puts out exactly one tool event, every field of it settled by the facts, if and only if its turn, a start, a valid end and a context are there and the item is not under way |
| `EmissionHistory.ReviewEventsAreHistory` | codex-rs/analytics/src/reducer.rs:1494-1540 | the same of review events |
| `EmissionHistory.SteerEventsAreHistory` | codex-rs/analytics/src/reducer.rs:1428-1492 | the same of steer events, accepted and rejected |
| `EmissionHistory.StepEventsAreHistory` | codex-rs/analytics/src/reducer.rs:406-534 | what any fact puts out after any run, every event in full, is what the facts before it settle |
| `EmissionHistory.EventsAreHistory` | codex-rs/analytics/src/reducer.rs:406-534 | the events of every run, in order, are those its facts settle |
| `EmissionHistory.DeniedExactly` | codex-rs/analytics/src/reducer.rs:2302-2318 | a tool event says the user denied the tool if and only if the last review of its item was an answer that declines |

## Left out

- File, process, Prettier and index writing around the exporter: input and output only.
- `annotate_schema` and title generation: a parameter of the bundler, assumed to leave references alone.
- `filter_experimental_fields_in_definitions`, `remove_property_from_schema` and the removal of method type definitions: map edits that would only add easy members.
- In-place update of JSON trees: modelled on values, since the source holds each tree by a unique mutable borrow.
- JSON pointer escapes and numbers beyond integers in JSON values: the exporter never makes or inspects them.
- Overflow of the scanner's 32-bit depth counters and of the 64-bit analytics counters: counters are unbounded.
- Byte offsets: strings are sequences of characters, so positions are character positions. Lengths the source compares in bytes are computed as UTF-8 lengths.
- LagAccounting.ExactLagAccounting: stated for runs with at most `usize::MAX` input events, since the skip counter saturates there.
- BundleClosed.BundlingIsClosed: for inputs that are JSON Schemas, so that `definitions` is a map if it is there, and a title annotation that adds no reference and removes no path.
- FieldImports.FieldFilteringTwice: for files laid out as the generator writes them: the lines above the declaration hold no `=` and no interface marker, and no line of the declaration is an import.
- GeneratedUnion.GeneratedFileFiltered: for files laid out as the generator writes them, imports above the alias.
- RefilterImports.FilteringTwice: for files laid out as the generator writes them, imports above the alias.
- WebSocket, TLS, Unix sockets and the length of timeouts: a timeout is a stream that ends without a decision.
- Error texts, log lines and the server version read from the handshake response.
- Commands still queued when the remote worker has left its loop: their callers see a closed channel, not a reply.
- Shutting a client down: joining or aborting its worker after a timeout.
- Client commands of the in-process worker: they are answered by tasks that do not touch the forwarder's state.
- Reducer facts that become events without touching state (skill, app, plugin, hook, import): one constructor, `Untracked`, carries their payloads.
- Projections of protocol records onto facts, such as counting the images of an input: facts carry the result.
- Payload records of analytics events: opaque values carried from facts to events, with counts of command actions, file changes and content items inside them.
- `codex-rs/app-server-daemon`, `codex-rs/agent-identity`, `codex-rs/agent-graph-store`: their guarantees rest on process control, cryptography and storage that is not part of this model.
