/** Filtering experimental fields out of a generated type
    (codex-rs/app-server-protocol/src/export.rs:381-406, 733-748, 817-828). */
module FieldFilter {
  import opened Text
  import opened Scanner
  import opened Splitting
  import opened ArmParser
  import opened RequestFilter

  const FIELD_ENDS: set<char> := {',', ';'}

  /** The marker of an interface. The functions below take it as a parameter, and what is proved about
      them holds for any marker. */
  const INTERFACE := "export interface"

  /** Where the search for the body starts: behind the first `=`, or else behind the interface marker. */
  function Marker(content: string, marker: string): (m: Option<nat>)
    ensures m.Some? ==> m.value <= |content|
  {
    match IndexOf(content, '=')
    case Some(eq) => Some(eq + 1)
    case None =>
      match FindText(content, marker)
      case Some(i) => Some(i + |marker|)
      case None => None
  }

  /** What `type_body_brace_span` returns. */
  function BodySpan(content: string, marker: string): (span: Option<(nat, nat)>)
    ensures span.Some? ==>
      span.value.0 < span.value.1 < |content| && content[span.value.0] == '{' && content[span.value.1] == '}'
  {
    match Marker(content, marker)
    case None => None
    case Some(m) =>
      BraceSpanBounds(START, content[m..], 0, None);
      match BraceSpan(START, content[m..], 0, None)
      case Some((open, close)) => Some((m + open, m + close))
      case None => None
  }

  method TypeBodyBraceSpan(content: string, marker: string) returns (span: Option<(nat, nat)>)
    ensures span == BodySpan(content, marker)
  {
    var start := Marker(content, marker);
    if start.None? {
      return None;
    }
    var inner := FindTopLevelBraceSpan(content[start.value..]);
    span := if inner.Some? then Some((start.value + inner.value.0, start.value + inner.value.1)) else None;
  }

  lemma {:induction false} TrimStartShrinks(s: string)
    ensures |TrimStart(s)| <= |s|
  {
    if s != "" && IsWhitespace(s[0]) {
      TrimStartShrinks(s[1..]);
    }
  }

  /** The text behind leading blanks and closed block comments. */
  function Uncommented(text: string): string
    decreases |text|
  {
    var rest := TrimStart(text);
    TrimStartShrinks(text);
    if !("/*" <= rest) then rest
    else
      match FindText(rest[2..], "*/")
      case Some(end) => Uncommented(rest[2..][end + 2..])
      case None => rest
  }

  /** `strip_leading_block_comments` */
  method StripLeadingBlockComments(text: string) returns (rest: string)
    ensures rest == Uncommented(text)
  {
    rest := TrimStart(text);
    var ahead := text;
    while true
      invariant rest == TrimStart(ahead) && Uncommented(ahead) == Uncommented(text)
      decreases |ahead|
    {
      TrimStartShrinks(ahead);
      if !("/*" <= rest) {
        return;
      }
      var end := FindText(rest[2..], "*/");
      if end.None? {
        return;
      }
      ahead := rest[2..][end.value + 2..];
      rest := TrimStart(ahead);
    }
  }

  /** Fields that stay: those without a readable name, or with one that is not experimental. */
  function KeepField(names: set<string>): string -> bool {
    field => match PropertyName(Uncommented(field)) case Some(name) => name !in names case None => true
  }

  function KeptFields(inner: string, names: set<string>): seq<string> {
    Select(Split(inner, FIELD_ENDS), KeepField(names))
  }

  /** The text between the braces after filtering. */
  function FilteredInner(names: set<string>): string -> string {
    inner => Join(KeptFields(inner, names), ", ")
  }

  /** The content with the text between the braces of its body rewritten. */
  function RewriteBody(content: string, marker: string, rewrite: string -> string): string {
    match BodySpan(content, marker)
    case None => content
    case Some((open, close)) => content[..open + 1] + rewrite(content[open + 1..close]) + content[close..]
  }

  function ImportScope(content: string, inner: string): string {
    match SplitTypeAlias(content)
    case Some(a) => a.body
    case None => inner
  }

  /** The rewritten content with its unused imports pruned. */
  function RewriteType(content: string, marker: string, rewrite: string -> string): string {
    match BodySpan(content, marker)
    case None => content
    case Some((open, close)) =>
      var rewritten := RewriteBody(content, marker, rewrite);
      PrunedImports(rewritten, ImportScope(rewritten, rewrite(content[open + 1..close])))
  }

  /** What `filter_experimental_type_fields_ts_contents` returns. */
  function FilterFields(content: string, names: set<string>): string {
    RewriteType(content, INTERFACE, FilteredInner(names))
  }

  method Keeps(field: string, names: set<string>) returns (keep: bool)
    ensures keep == KeepField(names)(field)
  {
    var rest := StripLeadingBlockComments(field);
    var name := PropertyName(rest);
    keep := name.None? || name.value !in names;
  }

  lemma SelectNext(kept: seq<string>, fields: seq<string>, i: nat, keep: string -> bool)
    requires i < |fields|
    ensures kept + Select(fields[i..], keep) ==
      (if keep(fields[i]) then kept + [fields[i]] else kept) + Select(fields[i + 1..], keep)
  {
    SelectStep(fields, i, keep);
  }

  method FieldsKept(fields: seq<string>, names: set<string>) returns (kept: seq<string>)
    ensures kept == Select(fields, KeepField(names))
  {
    kept := [];
    ghost var all := Select(fields, KeepField(names));
    assert fields[0..] == fields;
    for i := 0 to |fields|
      invariant kept + Select(fields[i..], KeepField(names)) == all
    {
      SelectNext(kept, fields, i, KeepField(names));
      var keep := Keeps(fields[i], names);
      if keep {
        kept := kept + [fields[i]];
      }
    }
    assert kept + [] == kept;
  }

  method FilterInner(inner: string, names: set<string>) returns (filtered: string)
    ensures filtered == FilteredInner(names)(inner)
  {
    var fields := SplitTopLevel(inner, FIELD_ENDS);
    var kept := FieldsKept(fields, names);
    filtered := Join(kept, ", ");
  }

  /** Puts the new text between the braces and prunes the imports. */
  method PutInner(content: string, ghost marker: string, ghost rewrite: string -> string, open: nat, close: nat, inner: string)
    returns (result: string)
    requires BodySpan(content, marker) == Some((open, close)) && inner == rewrite(content[open + 1..close])
    ensures result == RewriteType(content, marker, rewrite)
  {
    var filtered := content[..open + 1] + inner + content[close..];
    var alias := SplitTypeAlias(filtered);
    result := PruneUnusedTypeImports(filtered, if alias.Some? then alias.value.body else inner);
  }

  /** `filter_experimental_type_fields_ts_contents` */
  method FilterExperimentalTypeFields(content: string, names: set<string>) returns (result: string)
    ensures result == FilterFields(content, names)
  {
    var span := TypeBodyBraceSpan(content, INTERFACE);
    if span.None? {
      return content;
    }
    var (open, close) := span.value;
    var inner := FilterInner(content[open + 1..close], names);
    result := PutInner(content, INTERFACE, FilteredInner(names), open, close, inner);
  }
}
