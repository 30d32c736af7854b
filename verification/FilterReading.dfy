/** What the two filters drop from any file, read off its text
    (codex-rs/app-server-protocol/src/export.rs:316-339, 381-406). */
module FilterReading {
  import opened Text
  import opened Scanner
  import opened Splitting
  import opened Lexing
  import opened Spans
  import opened ArmParser
  import opened PropertyReading
  import opened RequestFilter
  import opened ImportReading
  import opened FieldFilter

  // ----- arms -----

  /** The first of the fields named `method` gives `m`. */
  ghost predicate FieldsGive(fields: seq<string>, m: string) {
    exists k: nat :: FirstMethodField(fields, k) && GivesMethod(fields[k], m)
  }

  /** The fields between the braces found in the arm give the method. */
  ghost predicate HasMethod(arm: string, m: string) {
    exists o: nat, c: nat :: SpanAt(arm, Tops(arm), o, c) && FieldsGive(Split(arm[o + 1..c], {','}), m)
  }

  lemma MethodOfSpan(arm: string, span: (nat, nat), fields: seq<string>)
    requires BraceSpan(START, arm, 0, None) == Some(span) && span.0 < span.1 < |arm| && fields == Split(arm[span.0 + 1..span.1], {','})
    ensures ExtractMethod(arm) == MethodOf(fields)
  {
  }

  lemma MethodIsHad(arm: string, m: string)
    requires ExtractMethod(arm) == Some(m)
    ensures HasMethod(arm, m)
  {
    BraceSpanBounds(START, arm, 0, None);
    var span := BraceSpan(START, arm, 0, None).value;
    var fields := Split(arm[span.0 + 1..span.1], {','});
    MethodOfSpan(arm, span, fields);
    MethodExactly(fields, m);
    BraceSpanExactly(arm, Tops(arm), span.0, span.1);
  }

  lemma HadIsMethod(arm: string, m: string, top: nat -> bool, o: nat, c: nat, fields: seq<string>)
    requires top == Tops(arm) && SpanAt(arm, top, o, c) && fields == Split(arm[o + 1..c], {','}) && FieldsGive(fields, m)
    ensures ExtractMethod(arm) == Some(m)
  {
    BraceSpanExactly(arm, top, o, c);
    MethodOfSpan(arm, (o, c), fields);
    MethodExactly(fields, m);
  }

  lemma MethodReads(arm: string, m: string)
    ensures ExtractMethod(arm) == Some(m) <==> HasMethod(arm, m)
  {
    if ExtractMethod(arm) == Some(m) {
      MethodIsHad(arm, m);
    }
    if HasMethod(arm, m) {
      var o: nat, c: nat :| SpanAt(arm, Tops(arm), o, c) && FieldsGive(Split(arm[o + 1..c], {','}), m);
      HadIsMethod(arm, m, Tops(arm), o, c, Split(arm[o + 1..c], {','}));
    }
  }

  /** An arm goes exactly when it has a method, and that is one of the experimental ones and not empty. */
  lemma ArmGoesExactly(arm: string, experimental: set<string>)
    ensures !KeepArm(experimental)(arm) <==> exists m :: m in experimental && m != "" && HasMethod(arm, m)
  {
    if ExtractMethod(arm).Some? {
      MethodReads(arm, ExtractMethod(arm).value);
    }
    forall m | HasMethod(arm, m) ensures ExtractMethod(arm) == Some(m) {
      MethodReads(arm, m);
    }
  }

  /** The request filter on any file: without an alias nothing changes; otherwise the union's arms are filtered
      in order and joined, and the imports pruned that the new union does not use. */
  lemma RequestsFilteredExactly(content: string, experimental: set<string>, a: Alias, arms: seq<string>, body: string)
    ensures SplitTypeAlias(content).None? ==> FilterRequestTs(content, experimental) == content
    ensures SplitTypeAlias(content) == Some(a) && arms == Split(a.body, {'|'}) && body == Join(Select(arms, KeepArm(experimental)), " | ") ==>
      FilterRequestTs(content, experimental) == PrunedImports(a.prefix + body + a.suffix, body)
  {
    if SplitTypeAlias(content) == Some(a) && arms == Split(a.body, {'|'}) && body == Join(Select(arms, KeepArm(experimental)), " | ") {
      AliasIsWellFormed(content);
      BodyReplaced(a, body);
    }
  }

  // ----- fields -----

  /** Blanks, and a block comment that closes at the first chance. */
  ghost predicate CommentForm(text: string, blank: string, tail: string, b: string, rest: string) {
    && AllWhitespace(blank) && text == blank + ("/*" + tail) && tail == b + "*/" + rest
    && forall j: nat :: j < |b| ==> !OccursAt(tail, "*/", j)
  }

  ghost predicate CommentFirst(text: string, rest: string) {
    exists blank, tail, b :: CommentForm(text, blank, tail, b, rest)
  }

  lemma CloseIsFound(tail: string, b: string, rest: string)
    requires tail == b + "*/" + rest && forall j: nat :: j < |b| ==> !OccursAt(tail, "*/", j)
    ensures FindText(tail, "*/") == Some(|b|) && tail[|b| + 2..] == rest
  {
    assert tail[|b|..] == "*/" + rest;
    FoundExactly(tail, "*/", |b|);
  }

  lemma PeeledOnce(text: string, after: string, tail: string, i: nat)
    requires TrimStart(text) == after && after == "/*" + tail && FindText(tail, "*/") == Some(i)
    ensures Uncommented(text) == Uncommented(tail[i + 2..])
  {
    assert after[2..] == tail;
  }

  lemma CommentPeeled(text: string, rest: string)
    requires CommentFirst(text, rest)
    ensures Uncommented(text) == Uncommented(rest)
  {
    var blank, tail, b :| CommentForm(text, blank, tail, b, rest);
    var after := "/*" + tail;
    TrimStartBlank(blank, after);
    CloseIsFound(tail, b, rest);
    PeeledOnce(text, after, tail, |b|);
  }

  lemma CloseParts(tail: string, i: nat) returns (b: string, rest: string)
    requires FindText(tail, "*/") == Some(i)
    ensures tail == b + "*/" + rest && forall j: nat :: j < |b| ==> !OccursAt(tail, "*/", j)
  {
    b, rest := tail[..i], tail[i + 2..];
    FoundExactly(tail, "*/", i);
    assert tail[i..] == "*/" + rest;
  }

  lemma NothingPeeled(text: string)
    requires forall rest :: !CommentFirst(text, rest)
    ensures Uncommented(text) == TrimStart(text)
  {
    var trimmed := TrimStart(text);
    var blank := TrimStartParts(text);
    if "/*" <= trimmed {
      var tail := trimmed[2..];
      assert trimmed == "/*" + tail;
      if FindText(tail, "*/").Some? {
        var b, rest := CloseParts(tail, FindText(tail, "*/").value);
        assert CommentForm(text, blank, tail, b, rest);
        assert CommentFirst(text, rest);
        assert false;
      }
    }
  }

  /** Leading blanks and closed block comments are passed over, as many as there are. */
  lemma UncommentedExactly(text: string)
    ensures forall rest :: CommentFirst(text, rest) ==> Uncommented(text) == Uncommented(rest)
    ensures (forall rest :: !CommentFirst(text, rest)) ==> Uncommented(text) == TrimStart(text)
  {
    forall rest | CommentFirst(text, rest) ensures Uncommented(text) == Uncommented(rest) {
      CommentPeeled(text, rest);
    }
    if forall rest :: !CommentFirst(text, rest) {
      NothingPeeled(text);
    }
  }

  /** A field goes exactly when, behind its comments, it names one of the experimental properties. */
  lemma FieldGoesExactly(field: string, names: set<string>)
    ensures !KeepField(names)(field) <==> exists n :: n in names && NamesProperty(TrimStart(Uncommented(field)), n)
  {
    var bare := Uncommented(field);
    if PropertyName(bare).Some? {
      PropertyNameExactly(bare, PropertyName(bare).value);
    }
    forall n | NamesProperty(TrimStart(bare), n) ensures PropertyName(bare) == Some(n) {
      PropertyNameExactly(bare, n);
    }
  }

  /** The search for the body starts behind the first `=`, or, without one, behind the first `export interface`. */
  ghost predicate SearchFrom(content: string, m: nat) {
    if '=' in content then 0 < m <= |content| && content[m - 1] == '=' && '=' !in content[..m - 1]
    else 16 <= m && OccursAt(content, "export interface", m - 16) && forall j: nat :: j < m - 16 ==> !OccursAt(content, "export interface", j)
  }

  lemma MarkerExactly(content: string, m: nat)
    ensures Marker(content, INTERFACE) == Some(m) <==> SearchFrom(content, m)
  {
    if '=' in content {
      var eq := IndexOf(content, '=').value;
      if SearchFrom(content, m) {
        IndexOfUnique(content, '=', m - 1);
      }
    } else {
      if m >= 16 {
        FoundExactly(content, INTERFACE, m - 16);
      }
      if FindText(content, INTERFACE).Some? {
        FoundExactly(content, INTERFACE, FindText(content, INTERFACE).value);
      }
    }
  }

  /** The braces of the text behind `m`; `Spans.BraceSpanExactly` says which they are. */
  ghost predicate BodyBehind(content: string, m: nat, o: nat, c: nat) {
    m <= o && m <= c && m <= |content| && BraceSpan(START, content[m..], 0, None) == Some((o - m, c - m))
  }

  lemma BodyIsBehind(content: string, marker: string, m: nat, o: nat, c: nat)
    requires Marker(content, marker) == Some(m)
    ensures BodySpan(content, marker) == Some((o, c)) <==> BodyBehind(content, m, o, c)
  {
    BraceSpanBounds(START, content[m..], 0, None);
  }

  /** The body is the pair of braces found behind the place where the search starts. */
  lemma BodyExactly(content: string, o: nat, c: nat)
    ensures BodySpan(content, INTERFACE) == Some((o, c)) <==> exists m: nat :: SearchFrom(content, m) && BodyBehind(content, m, o, c)
  {
    var marker := Marker(content, INTERFACE);
    if marker.Some? {
      MarkerExactly(content, marker.value);
      BodyIsBehind(content, INTERFACE, marker.value, o, c);
    }
    forall m: nat | SearchFrom(content, m) ensures marker == Some(m) {
      MarkerExactly(content, m);
    }
  }
}
