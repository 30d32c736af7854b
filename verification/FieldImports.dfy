/** Filtering the fields of a generated file twice is filtering them once, imports included. */
module FieldImports {
  import opened Text
  import opened Scanner
  import opened Splitting
  import opened ArmParser
  import opened Nesting
  import opened RequestFilter
  import opened RefilterImports
  import opened FieldFilter
  import opened FieldRefilter

  // ----- the lines above the declaration -----

  function Shift(at: Option<nat>, k: nat): Option<nat> {
    if at.Some? then Some(at.value + k) else None
  }

  lemma ContainsNext(line: string, pattern: string)
    requires line != "" && !Contains(line, pattern)
    ensures !(pattern <= line) && !Contains(line[1..], pattern)
  {
  }

  lemma PrefixOfLine(line: string, rest: string, pattern: string)
    requires '\n' !in pattern
    ensures pattern <= line + "\n" + rest ==> pattern <= line
  {
    var text := line + "\n" + rest;
    assert text[|line|] == '\n' && text[..|line|] == line;
  }

  lemma FoundLater(text: string, rest: string, pattern: string, k: nat)
    requires text != "" && !(pattern <= text) && FindText(text[1..], pattern) == Shift(FindText(rest, pattern), k)
    ensures FindText(text, pattern) == Shift(FindText(rest, pattern), k + 1)
  {
  }

  /** A pattern without a newline that is not in a line is found behind it. */
  lemma {:induction false} LineSkipped(line: string, rest: string, pattern: string)
    requires pattern != "" && '\n' !in pattern && !Contains(line, pattern)
    ensures FindText(line + "\n" + rest, pattern) == Shift(FindText(rest, pattern), |line| + 1)
    decreases |line|
  {
    var text := line + "\n" + rest;
    PrefixOfLine(line, rest, pattern);
    if line == "" {
      assert text[1..] == rest;
      FoundLater(text, rest, pattern, 0);
    } else {
      ContainsNext(line, pattern);
      assert text[1..] == line[1..] + "\n" + rest;
      LineSkipped(line[1..], rest, pattern);
      FoundLater(text, rest, pattern, |line|);
    }
  }

  /** Lines above a declaration: comments and imports, without the marker or a `=`. */
  ghost predicate Above(lines: seq<string>, marker: string) {
    forall l :: l in lines ==> Clean(l) && '=' !in l && !Contains(l, marker)
  }

  lemma FirstOfUnlines(lines: seq<string>, rest: string)
    requires lines != []
    ensures Unlines(lines) + rest == lines[0] + "\n" + (Unlines(lines[1..]) + rest)
    ensures |Unlines(lines)| == |Unlines(lines[1..])| + |lines[0]| + 1
  {
    Associate(lines[0] + "\n", Unlines(lines[1..]), rest);
  }

  /** A search that skips each line skips them all. */
  lemma {:induction false} LinesSkipped(lines: seq<string>, rest: string, find: string -> Option<nat>)
    requires forall l, below :: l in lines ==> find(l + "\n" + below) == Shift(find(below), |l| + 1)
    ensures find(Unlines(lines) + rest) == Shift(find(rest), |Unlines(lines)|)
  {
    if lines == [] {
      assert Unlines(lines) + rest == rest;
    } else {
      FirstOfUnlines(lines, rest);
      LinesSkipped(lines[1..], rest, find);
    }
  }

  lemma FindBelow(lines: seq<string>, rest: string, pattern: string)
    requires pattern != "" && '\n' !in pattern && Above(lines, pattern)
    ensures FindText(Unlines(lines) + rest, pattern) == Shift(FindText(rest, pattern), |Unlines(lines)|)
  {
    var find := (text: string) => FindText(text, pattern);
    forall l, below | l in lines ensures find(l + "\n" + below) == Shift(find(below), |l| + 1) {
      LineSkipped(l, below, pattern);
    }
    LinesSkipped(lines, rest, find);
    assert find(Unlines(lines) + rest) == Shift(find(rest), |Unlines(lines)|);
  }

  lemma EqualsSkipped(above: string, rest: string)
    requires '=' !in above
    ensures IndexOf(above + rest, '=') == Shift(IndexOf(rest, '='), |above|)
  {
    var text := above + rest;
    if IndexOf(rest, '=').Some? {
      var i := IndexOf(rest, '=').value;
      assert text[..|above| + i] == above + rest[..i];
      IndexOfUnique(text, '=', |above| + i);
    }
  }

  lemma AboveHasNoEquals(lines: seq<string>, marker: string)
    requires Above(lines, marker)
    ensures '=' !in Unlines(lines)
  {
    UnlinesHolds(lines, '=');
  }

  function MarkerAt(eq: Option<nat>, found: Option<nat>, width: nat): Option<nat> {
    if eq.Some? then Some(eq.value + 1) else if found.Some? then Some(found.value + width) else None
  }

  lemma MarkerIs(content: string, marker: string)
    ensures Marker(content, marker) == MarkerAt(IndexOf(content, '='), FindText(content, marker), |marker|)
  {
  }

  lemma MarkerShifts(eq: Option<nat>, found: Option<nat>, width: nat, k: nat, m: nat, m': nat)
    requires MarkerAt(eq, found, width) == Some(m) && m' == k + m
    ensures MarkerAt(Shift(eq, k), Shift(found, k), width) == Some(m')
  {
  }

  lemma MarkerBelow(lines: seq<string>, rest: string, marker: string, m: nat, m': nat)
    requires marker != "" && '\n' !in marker && Above(lines, marker) && Marker(rest, marker) == Some(m)
    requires m' == |Unlines(lines)| + m
    ensures Marker(Unlines(lines) + rest, marker) == Some(m')
  {
    AboveHasNoEquals(lines, marker);
    EqualsSkipped(Unlines(lines), rest);
    FindBelow(lines, rest, marker);
    MarkerIs(rest, marker);
    MarkerIs(Unlines(lines) + rest, marker);
    MarkerShifts(IndexOf(rest, '='), FindText(rest, marker), |marker|, |Unlines(lines)|, m, m');
  }

  /** The body of the declaration is the body of the file. */
  lemma SpanBelow(lines: seq<string>, rest: string, marker: string, span: (nat, nat), span': (nat, nat))
    requires marker != "" && '\n' !in marker && Above(lines, marker) && BodySpan(rest, marker) == Some(span)
    requires span'.0 == |Unlines(lines)| + span.0 && span'.1 == |Unlines(lines)| + span.1
    ensures BodySpan(Unlines(lines) + rest, marker) == Some(span')
  {
    var above, m := Unlines(lines), Marker(rest, marker).value;
    var k, behind := |above| + m, rest[m..];
    SpanBehindMarker(rest, marker, m);
    var o, c := span.0 - m, span.1 - m;
    BehindMarker(rest, marker, m, behind, o, c, span);
    assert behind == (above + rest)[k..] ;
    MarkerBelow(lines, rest, marker, m, k);
    BehindMarker(above + rest, marker, k, behind, o, c, span');
  }

  lemma LastBelow(above: string, rest: string, c: char, i: nat)
    requires LastIndexOf(rest, c) == Some(i)
    ensures LastIndexOf(above + rest, c) == Some(|above| + i)
  {
    var text := above + rest;
    assert text[|above| + i + 1..] == rest[i + 1..];
    LastIndexOfUnique(text, c, |above| + i);
  }

  lemma LastAbove(above: string, rest: string, c: char, i: nat, text: string)
    requires c !in rest && text == above + rest && i < |text| && text[i] == c
    ensures i < |above|
  {
    forall k | |above| <= k < |text| ensures text[k] != c {
      assert text[k] == rest[k - |above|];
    }
  }

  /** The text between two places, or the other one. */
  function Between(content: string, eq: Option<nat>, semi: Option<nat>, inner: string): string
    requires semi.Some? ==> semi.value <= |content|
  {
    if eq.Some? && semi.Some? && eq.value < semi.value then content[eq.value + 1..semi.value] else inner
  }

  lemma ScopeIs(content: string, inner: string)
    ensures ImportScope(content, inner) == Between(content, IndexOf(content, '='), LastIndexOf(content, ';'), inner)
  {
  }

  lemma BetweenBelow(above: string, rest: string, inner: string, eq: Option<nat>, semi: Option<nat>, semi': Option<nat>)
    requires (semi.Some? ==> semi.value < |rest| && semi' == Shift(semi, |above|)) && (semi'.Some? ==> semi'.value < |above + rest|)
    requires semi.None? && semi'.Some? ==> semi'.value < |above|
    ensures Between(above + rest, Shift(eq, |above|), semi', inner) == Between(rest, eq, semi, inner)
  {
    if eq.Some? && semi.Some? {
      SliceBelow(above, rest, eq.value + 1, semi.value);
    }
  }

  lemma SliceBelow(above: string, rest: string, i: nat, j: nat)
    requires j <= |rest|
    ensures i <= j ==> (above + rest)[|above| + i..|above| + j] == rest[i..j]
  {
  }

  lemma SemicolonBelow(above: string, rest: string, semi: Option<nat>, semi': Option<nat>)
    requires semi == LastIndexOf(rest, ';') && semi' == LastIndexOf(above + rest, ';')
    ensures semi.Some? ==> semi' == Shift(semi, |above|)
    ensures semi.None? && semi'.Some? ==> semi'.value < |above|
  {
    if semi.Some? {
      LastBelow(above, rest, ';', semi.value);
    } else if semi'.Some? {
      LastAbove(above, rest, ';', semi'.value, above + rest);
    }
  }

  /** What the imports must be used in does not depend on the lines above. */
  lemma ScopeBelow(above: string, rest: string, inner: string)
    requires '=' !in above
    ensures ImportScope(above + rest, inner) == ImportScope(rest, inner)
  {
    var semi, semi' := LastIndexOf(rest, ';'), LastIndexOf(above + rest, ';');
    EqualsSkipped(above, rest);
    SemicolonBelow(above, rest, semi, semi');
    BetweenBelow(above, rest, inner, IndexOf(rest, '='), semi, semi');
    ScopeIs(above + rest, inner);
    ScopeIs(rest, inner);
  }

  // ----- one pass -----

  ghost predicate NoImports(text: string) {
    forall l :: l in Lines(text) ==> ImportedName(l).None?
  }

  lemma PrunedAbove(lines: seq<string>, rest: string, scope: string)
    requires (forall l :: l in lines ==> Clean(l)) && '\r' !in rest && rest != "" && NoImports(rest)
    ensures PrunedImports(Unlines(lines) + rest, scope) == Unlines(Select(lines, KeepLine(scope))) + rest
  {
    NoImportIsKept(Lines(rest), scope);
    SelectAbove(lines, rest, KeepLine(scope));
  }

  lemma Places(above: string, file: TypeFile, text: string, open: nat, close: nat)
    requires text == above + file.Text() && file.before != ""
    requires open == |above| + SpanIn(file).0 && close == |above| + SpanIn(file).1
    ensures text[..open + 1] == above + file.before && text[open + 1..close] == file.inner && text[close..] == file.after
  {
    assert text == above + file.before + file.inner + file.after;
  }

  lemma RewriteAt(text: string, marker: string, rewrite: string -> string, open: nat, close: nat, before: string, inner: string, after: string)
    requires BodySpan(text, marker) == Some((open, close)) && inner == rewrite(text[open + 1..close])
    requires before == text[..open + 1] && after == text[close..]
    ensures RewriteType(text, marker, rewrite) == PrunedImports(before + inner + after, ImportScope(before + inner + after, inner))
  {
  }

  /** The rewritten text, before its imports are pruned. */
  lemma BodyRewritten(lines: seq<string>, file: TypeFile, marker: string, rewrite: string -> string, file': TypeFile, above: string)
    requires marker != "" && '\n' !in marker && Above(lines, marker) && HasBody(file, marker)
    requires file' == file.(inner := rewrite(file.inner)) && above == Unlines(lines)
    ensures RewriteType(above + file.Text(), marker, rewrite) ==
      PrunedImports(above + file'.Text(), ImportScope(above + file'.Text(), file'.inner))
  {
    var text, open, close := above + file.Text(), |above| + SpanIn(file).0, |above| + SpanIn(file).1;
    Places(above, file, text, open, close);
    SpanBelow(lines, file.Text(), marker, SpanIn(file), (open, close));
    RewriteAt(text, marker, rewrite, open, close, above + file.before, file'.inner, file.after);
    AssociateAll(above, file.before, file'.inner, file.after);
  }

  function ScopeOf(file: TypeFile): string {
    ImportScope(file.Text(), file.inner)
  }

  /** One pass over a generated file: the body is rewritten and the imports above it are pruned. */
  lemma OnePass(lines: seq<string>, file: TypeFile, marker: string, rewrite: string -> string, file': TypeFile)
    requires marker != "" && '\n' !in marker && Above(lines, marker) && HasBody(file, marker)
    requires file' == file.(inner := rewrite(file.inner)) && '\r' !in file'.Text() && NoImports(file'.Text())
    ensures RewriteType(Unlines(lines) + file.Text(), marker, rewrite) ==
      Unlines(Select(lines, KeepLine(ScopeOf(file')))) + file'.Text()
  {
    BodyRewritten(lines, file, marker, rewrite, file', Unlines(lines));
    AboveHasNoEquals(lines, marker);
    ScopeBelow(Unlines(lines), file'.Text(), file'.inner);
    PrunedAbove(lines, file'.Text(), ScopeOf(file'));
  }

  lemma SelectedAbove(lines: seq<string>, keep: string -> bool, marker: string)
    requires Above(lines, marker)
    ensures Above(Select(lines, keep), marker)
  {
    SelectMembers(lines, keep);
  }

  /** A second pass finds its body again and has nothing left to prune. */
  lemma SecondPass(lines: seq<string>, file: TypeFile, marker: string, rewrite: string -> string, file': TypeFile)
    requires marker != "" && '\n' !in marker && Above(lines, marker) && HasBody(file, marker)
    requires file' == file.(inner := rewrite(file.inner)) && '\r' !in file'.Text() && NoImports(file'.Text())
    requires HasBody(file', marker) && rewrite(file'.inner) == file'.inner
    ensures var once := RewriteType(Unlines(lines) + file.Text(), marker, rewrite);
      RewriteType(once, marker, rewrite) == once
  {
    var keep := KeepLine(ScopeOf(file'));
    OnePass(lines, file, marker, rewrite, file');
    SelectedAbove(lines, keep, marker);
    OnePass(Select(lines, keep), file', marker, rewrite, file');
    SelectTwice(lines, keep);
  }

  // ----- the whole filter -----

  lemma NoReturns(file: TypeFile, names: set<string>)
    requires '\r' !in file.Text()
    ensures '\r' !in FilteredFile(file, names).Text()
  {
    assert forall c :: c in file.before || c in file.inner || c in file.after ==> c in file.Text();
    FilteredChars(file.inner, names, '\r');
  }

  lemma InnerOf(names: set<string>, body: string, kept: seq<string>)
    requires kept == KeptFields(body, names)
    ensures FilteredInner(names)(body) == Join(kept, ", ")
  {
  }

  lemma FilteredStays(body: string, names: set<string>, kept: seq<string>, inner: string)
    requires kept == KeptFields(body, names) && NoLineComment(kept) && inner == Join(kept, ", ")
    ensures FilteredInner(names)(body) == inner == FilteredInner(names)(inner)
  {
    OnlyLastOrNone(kept);
    FieldsResplit(body, names, kept, inner);
    InnerOf(names, body, kept);
    InnerOf(names, inner, kept);
  }

  lemma TwoPasses(lines: seq<string>, file: TypeFile, names: set<string>, kept: seq<string>, marker: string, file': TypeFile)
    requires marker != "" && '\n' !in marker && Above(lines, marker) && HasBody(file, marker) && '\r' !in file.Text()
    requires kept == KeptFields(file.inner, names) && NoLineComment(kept) && Balanced(kept)
    requires file' == FilteredFile(file, names) && NoImports(file'.Text())
    ensures var once := RewriteType(Unlines(lines) + file.Text(), marker, FilteredInner(names));
      RewriteType(once, marker, FilteredInner(names)) == once
  {
    NoReturns(file, names);
    FilteredStays(file.inner, names, kept, file'.inner);
    KeptFieldsComeBack(file, marker, names, kept, file');
    SecondPass(lines, file, marker, FilteredInner(names), file');
  }

  lemma MarkerIsPlain()
    ensures INTERFACE != "" && '\n' !in INTERFACE
  {
  }

  /** The whole filter, imports included, is idempotent on a generated file whose kept fields come back. */
  lemma FieldFilteringTwice(lines: seq<string>, file: TypeFile, names: set<string>, kept: seq<string>)
    requires Above(lines, INTERFACE) && HasBody(file, INTERFACE) && '\r' !in file.Text()
    requires kept == KeptFields(file.inner, names) && NoLineComment(kept) && Balanced(kept)
    requires NoImports(FilteredFile(file, names).Text())
    ensures var once := FilterFields(Unlines(lines) + file.Text(), names);
      FilterFields(once, names) == once
  {
    MarkerIsPlain();
    TwoPasses(lines, file, names, kept, INTERFACE, FilteredFile(file, names));
  }

  /** The field filter on any file with a body: the fields are filtered in order and joined, and the imports pruned
      that the rest does not use. */
  lemma AnyFileFiltered(file: TypeFile, marker: string, names: set<string>, kept: seq<string>, rewrite: string -> string, file': TypeFile)
    requires HasBody(file, marker) && kept == KeptFields(file.inner, names) && rewrite == FilteredInner(names)
    requires file' == file.(inner := Join(kept, ", "))
    ensures RewriteType(file.Text(), marker, rewrite) == PrunedImports(file'.Text(), ScopeOf(file'))
  {
    InnerOf(names, file.inner, kept);
    FileRewritten(file, marker, rewrite, file');
  }

  /** Without a body nothing changes. */
  lemma NoBodyUnchanged(content: string, names: set<string>)
    requires BodySpan(content, INTERFACE).None?
    ensures FilterFields(content, names) == content
  {
  }

  lemma PlacedHere(file: TypeFile, text: string, open: nat, close: nat)
    requires text == file.Text() && file.before != "" && open == |file.before| - 1 && close == |file.before + file.inner|
    ensures text[..open + 1] == file.before && text[open + 1..close] == file.inner && text[close..] == file.after
  {
  }

  lemma BodyIsAt(file: TypeFile, marker: string, text: string) returns (open: nat, close: nat)
    requires HasBody(file, marker) && text == file.Text()
    ensures open == |file.before| - 1 && close == |file.before + file.inner| && BodySpan(text, marker) == Some((open, close))
  {
    open, close := SpanIn(file).0, SpanIn(file).1;
  }

  lemma FileRewritten(file: TypeFile, marker: string, rewrite: string -> string, file': TypeFile)
    requires HasBody(file, marker) && file' == file.(inner := rewrite(file.inner))
    ensures RewriteType(file.Text(), marker, rewrite) == PrunedImports(file'.Text(), ScopeOf(file'))
  {
    var text := file.Text();
    var open, close := BodyIsAt(file, marker, text);
    PlacedHere(file, text, open, close);
    RewriteAt(text, marker, rewrite, open, close, file.before, file'.inner, file.after);
  }
}
