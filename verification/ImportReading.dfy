/** Which import lines pruning drops, read off the line and the text
    (codex-rs/app-server-protocol/src/export.rs:666-719). */
module ImportReading {
  import opened Text
  import opened Scanner
  import opened Splitting
  import opened RequestFilter

  /** The pattern stands at `i`. */
  predicate OccursAt(text: string, pattern: string, i: nat) {
    i <= |text| && pattern <= text[i..]
  }

  ghost predicate Occurs(text: string, pattern: string) {
    exists i: nat :: OccursAt(text, pattern, i)
  }

  lemma Shifted(text: string, pattern: string, j: nat)
    requires text != "" && j > 0
    ensures OccursAt(text, pattern, j) <==> OccursAt(text[1..], pattern, j - 1)
  {
    if j <= |text| {
      assert text[j..] == text[1..][j - 1..];
    }
  }

  lemma {:induction false} NotBefore(text: string, pattern: string, j: nat)
    requires FindText(text, pattern).None? || j < FindText(text, pattern).value
    ensures !OccursAt(text, pattern, j)
    decreases |text|
  {
    if j == 0 {
      assert text[0..] == text;
    } else if text == "" {
    } else {
      Shifted(text, pattern, j);
      NotBefore(text[1..], pattern, j - 1);
    }
  }

  /** The place found is the first. */
  lemma FoundExactly(text: string, pattern: string, i: nat)
    ensures FindText(text, pattern) == Some(i) <==> OccursAt(text, pattern, i) && forall j: nat :: j < i ==> !OccursAt(text, pattern, j)
    ensures FindText(text, pattern).None? ==> !OccursAt(text, pattern, i)
  {
    var found := FindText(text, pattern);
    if found.None? || i < found.value {
      NotBefore(text, pattern, i);
    }
    if found.Some? {
      forall j: nat | j < found.value ensures !OccursAt(text, pattern, j) {
        NotBefore(text, pattern, j);
      }
      assert OccursAt(text, pattern, found.value);
    }
  }

  lemma ContainsExactly(text: string, pattern: string)
    ensures Contains(text, pattern) <==> Occurs(text, pattern)
  {
    if Contains(text, pattern) {
      FoundExactly(text, pattern, FindText(text, pattern).value);
    }
    forall i: nat | OccursAt(text, pattern, i) ensures Contains(text, pattern) {
      FoundExactly(text, pattern, i);
    }
  }

  /** `import type {`, then something up to the first `} from `, then anything. */
  ghost predicate ImportForm(text: string, rest: string, middle: string, tail: string) {
    && text == "import type {" + rest && rest == middle + "} from " + tail
    && forall j: nat :: j < |middle| ==> !OccursAt(rest, "} from ", j)
  }

  /** The line, trimmed, imports a single type, and under its own name. */
  ghost predicate Imports(line: string, name: string) {
    exists rest, middle, tail :: ImportForm(Trim(line), rest, middle, tail) && name == Trim(middle) && Single(name)
  }

  ghost predicate Single(name: string) {
    name != "" && ',' !in name && !Occurs(name, " as ")
  }

  lemma FromFound(rest: string, middle: string, tail: string)
    requires rest == middle + "} from " + tail && forall j: nat :: j < |middle| ==> !OccursAt(rest, "} from ", j)
    ensures FindText(rest, FROM) == Some(|middle|) && rest[..|middle|] == middle
  {
    assert rest[|middle|..] == FROM + tail;
    FoundExactly(rest, FROM, |middle|);
  }

  lemma FromParts(rest: string, i: nat) returns (middle: string, tail: string)
    requires FindText(rest, FROM) == Some(i)
    ensures rest == middle + "} from " + tail && middle == rest[..i]
    ensures forall j: nat :: j < |middle| ==> !OccursAt(rest, "} from ", j)
  {
    middle, tail := rest[..i], rest[i + |FROM|..];
    FoundExactly(rest, FROM, i);
    assert rest[i..] == FROM + tail;
  }

  lemma ImportIsRead(line: string, name: string, rest: string, middle: string, tail: string)
    requires ImportForm(Trim(line), rest, middle, tail) && name == Trim(middle)
    ensures ImportedName(line) == if Single(name) then Some(name) else None
  {
    assert Trim(line)[|IMPORT|..] == rest;
    FromFound(rest, middle, tail);
    ContainsExactly(name, " as ");
  }

  lemma ReadIsImport(line: string, name: string)
    requires ImportedName(line) == Some(name)
    ensures Imports(line, name)
  {
    var trimmed := Trim(line);
    var rest := trimmed[|IMPORT|..];
    assert trimmed == "import type {" + rest;
    var middle, tail := FromParts(rest, FindText(rest, FROM).value);
    assert ImportForm(trimmed, rest, middle, tail);
    ImportIsRead(line, name, rest, middle, tail);
  }

  lemma ImportedNameExactly(line: string, name: string)
    ensures ImportedName(line) == Some(name) <==> Imports(line, name)
  {
    if ImportedName(line) == Some(name) {
      ReadIsImport(line, name);
    }
    if Imports(line, name) {
      var rest, middle, tail :| ImportForm(Trim(line), rest, middle, tail) && name == Trim(middle) && Single(name);
      ImportIsRead(line, name, rest, middle, tail);
    }
  }

  /** A line is dropped exactly when it imports a single type whose name does not occur in the text. */
  lemma LineDroppedExactly(line: string, scope: string)
    ensures !KeepLine(scope)(line) <==> exists name :: Imports(line, name) && !Occurs(scope, name)
  {
    if ImportedName(line).Some? {
      ImportedNameExactly(line, ImportedName(line).value);
      ContainsExactly(scope, ImportedName(line).value);
    }
    forall name | Imports(line, name) ensures ImportedName(line) == Some(name) {
      ImportedNameExactly(line, name);
    }
  }

  // ----- the alias -----

  /** A file splits at its first `=` and its last `;`, when the one is before the other. */
  lemma AliasExactly(content: string, a: Alias)
    ensures SplitTypeAlias(content) == Some(a) <==> WellFormed(a) && content == a.prefix + a.body + a.suffix
  {
    if SplitTypeAlias(content) == Some(a) {
      AliasIsWellFormed(content);
    }
    if WellFormed(a) && content == a.prefix + a.body + a.suffix {
      BodyReplaced(a, a.body);
    }
  }
}
