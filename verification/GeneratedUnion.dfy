/** The request filter on the unions the type generator prints: it removes exactly the arms of
    experimental methods (codex-rs/app-server-protocol/src/export.rs:316-339, 750-893). */
module GeneratedUnion {
  import opened Text
  import opened Scanner
  import opened Splitting
  import opened ArmParser
  import opened RequestFilter
  import opened RefilterImports
  import opened Nesting

  // ----- printed fields -----

  const COMMA: set<char> := {','}

  /** A field as the generator prints it: trimmed, without a comma of its own, all of its brackets,
      strings and comments closed. */
  predicate Field(f: string) {
    Part(f, COMMA) && Settles(f) && NeverCloses(START, f)
  }

  function PrintFields(fields: seq<string>): string {
    if fields == [] then "" else fields[0] + ", " + PrintFields(fields[1..])
  }

  lemma {:induction false} FieldsSplit(s: Scan, fields: seq<string>)
    requires Base(s) && forall i :: 0 <= i < |fields| ==> Field(fields[i])
    ensures Cleaned(Pieces(s, PrintFields(fields), COMMA)) == fields
    decreases |fields|
  {
    if fields == [] {
      CleanedFirst("", []);
      assert [""] + [] == [""];
    } else {
      FieldSeparatorFits(COMMA);
      SettledPartIsCut(s, fields[0], FIELD_SEPARATOR, PrintFields(fields[1..]), COMMA);
      FieldsSplit(START, fields[1..]);
      assert [fields[0]] + fields[1..] == fields;
    }
  }

  lemma {:induction false} FieldsRun(s: Scan, fields: seq<string>)
    requires Base(s) && forall i :: 0 <= i < |fields| ==> Field(fields[i])
    ensures NeverCloses(s, PrintFields(fields)) && Base(Run(s, PrintFields(fields)))
    decreases |fields|
  {
    if fields != [] {
      var first, rest := fields[0] + ", ", PrintFields(fields[1..]);
      FieldThenComma(s, fields[0]);
      FieldsRun(Run(s, first), fields[1..]);
      NeverClosesAppend(s, first, rest);
      RunAppend(s, first, rest);
    }
  }

  // ----- the method field -----

  predicate Unquoted(name: string) {
    '"' !in name && '\\' !in name
  }

  function MethodField(name: string): string {
    "\"method\": \"" + name + "\""
  }

  lemma {:induction false} QuotedRun(s: Scan, name: string)
    requires s.quote == Some('"') && !s.line && !s.block && !s.escape && Unquoted(name)
    ensures Run(s, name) == s.(previous := Run(s, name).previous)
    ensures NoCut(s, name, COMMA) && NeverCloses(s, name)
    decreases |name|
  {
    if name != "" {
      assert name[0] in name && forall c :: c in name[1..] ==> c in name;
      QuotedRun(Observe(s, name[0]), name[1..]);
    }
  }

  /** A string literal, read from a base state, leads back to one. */
  lemma LiteralRun(s: Scan, name: string)
    requires Base(s) && Unquoted(name)
    ensures var text := "\"" + name + "\"";
      && Base(Run(s, text)) && NoCut(s, text, COMMA) && NeverCloses(s, text)
  {
    var text := "\"" + name + "\"";
    var inside := Observe(s, '"');
    assert text == ['"'] + (name + "\"") && (['"'] + (name + "\""))[1..] == name + "\"";
    QuotedRun(inside, name);
    RunAppend(inside, name, "\"");
    NoCutAppend(inside, name, "\"", COMMA);
    NeverClosesAppend(inside, name, "\"");
    assert "\""[1..] == "";
  }

  lemma MethodFieldIsField(name: string)
    requires Unquoted(name)
    ensures Field(MethodField(name))
  {
    var key, colon, value := "\"" + "method" + "\"", ": ", "\"" + name + "\"";
    assert MethodField(name) == key + (colon + value);
    LiteralRun(START, "method");
    var t := Run(START, key);
    PlainStep(t, ':');
    PlainStep(Observe(t, ':'), ' ');
    var u := Observe(Observe(t, ':'), ' ');
    assert colon[1..] == " " && " "[1..] == "";
    assert Run(t, colon) == u && NoCut(t, colon, COMMA) && NeverCloses(t, colon);
    LiteralRun(u, name);
    RunAppend(t, colon, value);
    NoCutAppend(t, colon, value, COMMA);
    NeverClosesAppend(t, colon, value);
    RunAppend(START, key, colon + value);
    NoCutAppend(START, key, colon + value, COMMA);
    NeverClosesAppend(START, key, colon + value);
    EndsWithoutBlanks(MethodField(name));
  }

  lemma EndsWithoutBlanks(text: string)
    requires text != "" && !IsWhitespace(text[0]) && !IsWhitespace(text[|text| - 1])
    ensures Trimmed(text)
  {
  }

  lemma {:induction false} QuoteCloses(text: string, index: nat, end: nat)
    requires index <= end < |text| && Unquoted(text[index..end]) && text[end] == '"'
    ensures ClosingQuote(text, index, '"', false) == Some(end)
    decreases end - index
  {
    if index < end {
      var rest := text[index..end];
      assert rest[0] in rest && rest[1..] == text[index + 1..end];
      assert forall c :: c in rest[1..] ==> c in rest;
      QuoteCloses(text, index + 1, end);
    }
  }

  lemma LiteralReads(name: string, rest: string)
    requires Unquoted(name)
    ensures StringLiteral("\"" + name + "\"" + rest) == Some((name, |name| + 2))
  {
    var text := "\"" + name + "\"" + rest;
    assert text[1..|name| + 1] == name;
    QuoteCloses(text, 1, |name| + 1);
  }

  lemma MethodFieldReads(name: string)
    requires Unquoted(name)
    ensures Property(MethodField(name)) == Some(("method", "\"" + name + "\""))
  {
    var text, value := MethodField(name), "\"" + name + "\"";
    assert text == "\"" + "method" + "\"" + (": " + value);
    LiteralReads("method", ": " + value);
    assert text[8..] == ": " + value && TrimStart(text) == text;
    assert TrimStart(": " + value) == ": " + value;
    assert PropertyName(text) == Some("method");
    assert IndexOf(text, ':') == Some(8) by {
      assert text[8] == ':' && forall i :: 0 <= i < 8 ==> text[i] != ':';
      FirstAt(text, ':', 8);
    }
    assert text[9..] == " " + value;
    assert (" " + value)[1..] == value;
    assert TrimStart(" " + value) == TrimStart(value) == value;
  }

  // ----- arms -----

  datatype Arm = Arm(name: string, fields: seq<string>)

  ghost predicate Printable(arm: Arm) {
    Unquoted(arm.name) && forall i :: 0 <= i < |arm.fields| ==> Field(arm.fields[i])
  }

  function AllFields(arm: Arm): seq<string> {
    [MethodField(arm.name)] + arm.fields
  }

  function PrintArm(arm: Arm): string {
    "{" + (" " + PrintFields(AllFields(arm))) + "}"
  }

  lemma ArmFields(arm: Arm)
    requires Printable(arm)
    ensures forall i :: 0 <= i < |AllFields(arm)| ==> Field(AllFields(arm)[i])
  {
    MethodFieldIsField(arm.name);
  }

  /** What the scanner does between the braces of an arm. */
  lemma InnerRun(arm: Arm)
    requires Printable(arm)
    ensures var inner, s := " " + PrintFields(AllFields(arm)), START.(previous := Some('{'));
      NeverCloses(s, inner) && Base(Run(s, inner))
  {
    var s, rest := START.(previous := Some('{')), PrintFields(AllFields(arm));
    ArmFields(arm);
    PlainStep(s, ' ');
    FieldsRun(Observe(s, ' '), AllFields(arm));
    assert (" " + rest)[1..] == rest;
  }

  /** The braces found are the arm's own, and the method read is the one printed. */
  lemma ArmReadsBack(arm: Arm)
    requires Printable(arm)
    ensures ExtractMethod(PrintArm(arm)) == Some(arm.name)
  {
    var text, inner := PrintArm(arm), " " + PrintFields(AllFields(arm));
    var s, close := START.(previous := Some('{')), 1 + |inner|;
    InnerRun(arm);
    assert text[1..close] == inner && text[0] == '{' && text[close] == '}';
    assert Observe(START, '{') == Deeper(s);
    QuietInside(s, inner);
    QuietSpan(Deeper(s), text, 1, close, 0);
    DeepRun(s, inner, COMMA);
    assert BraceSpan(START, text, 0, None) == Some((0, close));
    InnerSplit(arm);
    MethodFieldReads(arm.name);
    assert "\"" + arm.name + "\"" + "" == "\"" + arm.name + "\"";
    LiteralReads(arm.name, "");
  }

  lemma InnerSplit(arm: Arm)
    requires Printable(arm)
    ensures Split(" " + PrintFields(AllFields(arm)), COMMA) == AllFields(arm)
  {
    ArmFields(arm);
    FieldSeparatorFits(COMMA);
    BlankTail(START, " ", PrintFields(AllFields(arm)), COMMA);
    FieldsSplit(START, AllFields(arm));
  }

  lemma ArmIsPart(arm: Arm)
    requires Printable(arm)
    ensures Part(PrintArm(arm), BAR) && Settles(PrintArm(arm))
  {
    var text, inner := PrintArm(arm), " " + PrintFields(AllFields(arm));
    var s := START.(previous := Some('{'));
    InnerRun(arm);
    DeepRun(s, inner, BAR);
    assert text == ['{'] + (inner + "}") && (['{'] + (inner + "}"))[1..] == inner + "}";
    assert Observe(START, '{') == Deeper(s);
    RunAppend(Deeper(s), inner, "}");
    NoCutAppend(Deeper(s), inner, "}", BAR);
    assert "}"[1..] == "";
    EndsWithoutBlanks(text);
  }

  // ----- unions -----

  function PrintArms(arms: seq<Arm>): seq<string> {
    seq(|arms|, i requires 0 <= i < |arms| => PrintArm(arms[i]))
  }

  /** The arms whose method is not experimental, in order. */
  function Stable(arms: seq<Arm>, experimental: set<string>): seq<Arm> {
    if arms == [] then []
    else (if arms[0].name in experimental - {""} then [] else [arms[0]]) + Stable(arms[1..], experimental)
  }

  lemma UnionSplits(arms: seq<Arm>)
    requires forall i :: 0 <= i < |arms| ==> Printable(arms[i])
    ensures Split(Join(PrintArms(arms), " | "), BAR) == PrintArms(arms)
  {
    var parts := PrintArms(arms);
    forall i | 0 <= i < |parts| ensures Part(parts[i], BAR) && Settles(parts[i]) {
      ArmIsPart(arms[i]);
    }
    ArmSeparatorFits();
    SplitUndoesJoin(parts, ARM_SEPARATOR, BAR);
  }

  lemma PrintArmsFirst(arm: Arm, rest: seq<Arm>)
    ensures PrintArms([arm] + rest) == [PrintArm(arm)] + PrintArms(rest) && [] + rest == rest
  {
  }

  lemma {:induction false} SelectStable(arms: seq<Arm>, experimental: set<string>)
    requires forall i :: 0 <= i < |arms| ==> Printable(arms[i])
    ensures Select(PrintArms(arms), KeepArm(experimental)) == PrintArms(Stable(arms, experimental))
    decreases |arms|
  {
    if arms != [] {
      ArmReadsBack(arms[0]);
      assert PrintArms(arms)[1..] == PrintArms(arms[1..]);
      SelectStable(arms[1..], experimental);
      PrintArmsFirst(arms[0], Stable(arms[1..], experimental));
    }
  }

  /** Filtering the file of a printed union leaves the file of the union of its stable arms, with the
      imports pruned that this union does not use. */
  lemma GeneratedUnionFiltered(content: string, a: Alias, arms: seq<Arm>, experimental: set<string>, body: string)
    requires SplitTypeAlias(content) == Some(a) && a.body == Join(PrintArms(arms), " | ")
    requires (forall i :: 0 <= i < |arms| ==> Printable(arms[i])) && body == Join(PrintArms(Stable(arms, experimental)), " | ")
    ensures FilterRequestTs(content, experimental) == PrunedImports(a.prefix + body + a.suffix, body)
  {
    UnionSplits(arms);
    SelectStable(arms, experimental);
    AliasIsWellFormed(content);
    BodyReplaced(a, body);
  }

  /** In a file laid out as the generator does it, exactly the arms of experimental methods go, and exactly
      the import lines above them that no other arm uses. */
  lemma GeneratedFileFiltered(content: string, above: seq<string>, start: string, a: Alias, arms: seq<Arm>,
    experimental: set<string>, body: string)
    requires SplitTypeAlias(content) == Some(a) && a.body == Join(PrintArms(arms), " | ") && Generated(above, start, a)
    requires (forall i :: 0 <= i < |arms| ==> Printable(arms[i])) && body == Join(PrintArms(Stable(arms, experimental)), " | ")
    requires '\r' !in body && forall l :: l in Lines(start + body + a.suffix) ==> ImportedName(l).None?
    ensures FilterRequestTs(content, experimental) == Unlines(Select(above, KeepLine(body))) + start + body + a.suffix
  {
    GeneratedUnionFiltered(content, a, arms, experimental, body);
    PrunedAlias(above, start, a, KeepLine(body));
    FilteredOnce(above, start, a, body);
  }
}
