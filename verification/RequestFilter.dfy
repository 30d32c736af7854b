/** Filtering experimental arms out of a generated request union
    (codex-rs/app-server-protocol/src/export.rs:316-339, 666-694, 721-731). */
module RequestFilter {
  import opened Text
  import opened Scanner
  import opened Splitting
  import opened ArmParser

  /** The text around the first `=` and the last `;`. */
  datatype Alias = Alias(prefix: string, body: string, suffix: string)

  function LastIndexOf(text: string, c: char): (i: Option<nat>)
    ensures i.Some? ==> i.value < |text| && text[i.value] == c && c !in text[i.value + 1..]
    ensures i.None? ==> c !in text
  {
    if text == "" then None
    else if text[|text| - 1] == c then Some(|text| - 1)
    else
      var front := text[..|text| - 1];
      match LastIndexOf(front, c)
      case Some(i) => assert text[i + 1..] == front[i + 1..] + [text[|text| - 1]]; Some(i)
      case None => assert text == front + [text[|text| - 1]]; None
  }

  /** `split_type_alias` */
  function SplitTypeAlias(content: string): Option<Alias> {
    match IndexOf(content, '=')
    case Some(eq) =>
      (match LastIndexOf(content, ';')
       case Some(semi) =>
         if semi <= eq then None
         else Some(Alias(content[..eq + 1], content[eq + 1..semi], content[semi..]))
       case None => None)
    case None => None
  }

  const BAR: set<char> := {'|'}
  const ARM_SEPARATOR := Separator(" ", '|', " ")

  /** Arms that stay: those without a readable method, or with one that is not experimental. */
  function KeepArm(experimental: set<string>): string -> bool {
    arm => match ExtractMethod(arm) case Some(m) => m !in experimental - {""} case None => true
  }

  function KeptArms(body: string, experimental: set<string>): seq<string> {
    Select(Split(body, BAR), KeepArm(experimental))
  }

  /** The content with its union filtered, before imports are pruned. */
  function FilteredContent(content: string, experimental: set<string>): string {
    match SplitTypeAlias(content)
    case Some(a) => a.prefix + Join(KeptArms(a.body, experimental), " | ") + a.suffix
    case None => content
  }

  // ----- imports -----

  function FindText(text: string, pattern: string): (i: Option<nat>)
    ensures i.Some? ==> i.value + |pattern| <= |text| && pattern <= text[i.value..]
  {
    if pattern <= text then Some(0)
    else if text == "" then None
    else
      match FindText(text[1..], pattern)
      case Some(i) => assert text[1..][i..] == text[i + 1..]; Some(i + 1)
      case None => None
  }

  predicate Contains(text: string, pattern: string) {
    FindText(text, pattern).Some?
  }

  const IMPORT := "import type {"
  const FROM := "} from "

  /** `parse_imported_type_name` */
  function ImportedName(line: string): Option<string> {
    var trimmed := Trim(line);
    if !(IMPORT <= trimmed) then None
    else
      var rest := trimmed[|IMPORT|..];
      match FindText(rest, FROM)
      case Some(i) =>
        var name := Trim(rest[..i]);
        if name == "" || ',' in name || Contains(name, " as ") then None else Some(name)
      case None => None
  }

  /** Lines that pruning keeps. */
  function KeepLine(scope: string): string -> bool {
    line => match ImportedName(line) case Some(name) => Contains(scope, name) case None => true
  }

  function Ending(text: string): string {
    if EndsInNewline(text) then "\n" else ""
  }

  predicate EndsInNewline(text: string) {
    text != "" && text[|text| - 1] == '\n'
  }

  /** What `prune_unused_type_imports` returns. */
  function PrunedImports(content: string, scope: string): string {
    Join(Select(Lines(content), KeepLine(scope)), "\n") + Ending(content)
  }

  /** `prune_unused_type_imports` */
  method PruneUnusedTypeImports(content: string, scope: string) returns (rewritten: string)
    ensures rewritten == PrunedImports(content, scope)
  {
    var lines := SelectWhere(Lines(content), KeepLine(scope));
    rewritten := Join(lines, "\n");
    if EndsInNewline(content) {
      rewritten := rewritten + "\n";
    }
  }

  /** What `filter_request_ts_contents` returns. */
  function FilterRequestTs(content: string, experimental: set<string>): string {
    match SplitTypeAlias(content)
    case None => content
    case Some(a) =>
      var filtered := FilteredContent(content, experimental);
      var scope := match SplitTypeAlias(filtered)
                   case Some(b) => b.body
                   case None => Join(KeptArms(a.body, experimental), " | ");
      PrunedImports(filtered, scope)
  }

  /** `filter_request_ts_contents` */
  method FilterRequestTsContents(content: string, experimental: set<string>) returns (result: string)
    ensures result == FilterRequestTs(content, experimental)
  {
    var alias := SplitTypeAlias(content);
    if alias.None? {
      return content;
    }
    var arms := SplitTopLevel(alias.value.body, BAR);
    var kept := SelectWhere(arms, KeepArm(experimental));
    var body := Join(kept, " | ");
    var filtered := alias.value.prefix + body + alias.value.suffix;
    var again := SplitTypeAlias(filtered);
    result := PruneUnusedTypeImports(filtered, if again.Some? then again.value.body else body);
  }

  // ----- the alias after filtering -----

  predicate WellFormed(a: Alias) {
    && a.prefix != "" && a.prefix[|a.prefix| - 1] == '=' && '=' !in a.prefix[..|a.prefix| - 1]
    && a.suffix != "" && a.suffix[0] == ';' && ';' !in a.suffix[1..]
  }

  lemma AliasIsWellFormed(content: string)
    requires SplitTypeAlias(content).Some?
    ensures var a := SplitTypeAlias(content).value;
      WellFormed(a) && content == a.prefix + a.body + a.suffix
  {
  }

  lemma {:induction false} IndexOfUnique(text: string, c: char, i: nat)
    requires i < |text| && text[i] == c && c !in text[..i]
    ensures IndexOf(text, c) == Some(i)
  {
    if i > 0 {
      assert text[0] in text[..i];
      assert text[1..][..i - 1] == text[..i][1..];
      IndexOfUnique(text[1..], c, i - 1);
    }
  }

  lemma {:induction false} LastIndexOfUnique(text: string, c: char, i: nat)
    requires i < |text| && text[i] == c && c !in text[i + 1..]
    ensures LastIndexOf(text, c) == Some(i)
    decreases |text|
  {
    if i < |text| - 1 {
      var front := text[..|text| - 1];
      assert text[|text| - 1] in text[i + 1..];
      assert front[i + 1..] <= text[i + 1..];
      LastIndexOfUnique(front, c, i);
    }
  }

  /** Replacing the body of an alias, whatever the new body is, gives an alias with that body. */
  lemma BodyReplaced(a: Alias, body: string)
    requires WellFormed(a)
    ensures SplitTypeAlias(a.prefix + body + a.suffix) == Some(a.(body := body))
  {
    var text := a.prefix + body + a.suffix;
    var eq, semi := |a.prefix| - 1, |a.prefix + body|;
    assert text[..eq] == a.prefix[..eq];
    IndexOfUnique(text, '=', eq);
    assert text[semi + 1..] == a.suffix[1..];
    LastIndexOfUnique(text, ';', semi);
    assert text[..eq + 1] == a.prefix && text[eq + 1..semi] == body && text[semi..] == a.suffix;
  }

  lemma ArmSeparatorFits()
    ensures ARM_SEPARATOR.Text() == " | " && ARM_SEPARATOR.Fits(BAR) && '\n' !in ARM_SEPARATOR.before
  {
    assert AllWhitespace(" ") && Plain('|') && !IsWhitespace('|');
  }

  /** The filtered union splits into the kept arms, and filtering it again keeps the same arms,
      exactly when no kept arm but the last ends in a line comment. */
  lemma FilteredUnionResplits(content: string, experimental: set<string>)
    requires SplitTypeAlias(content).Some?
    ensures SplitTypeAlias(FilteredContent(content, experimental)).Some?
    ensures var kept := KeptArms(SplitTypeAlias(content).value.body, experimental);
      var body := SplitTypeAlias(FilteredContent(content, experimental)).value.body;
      && (Split(body, BAR) == kept <==> OnlyLastEndsInLineComment(kept))
      && (OnlyLastEndsInLineComment(kept) ==>
            FilteredContent(FilteredContent(content, experimental), experimental) == FilteredContent(content, experimental))
  {
    var a := SplitTypeAlias(content).value;
    var kept := KeptArms(a.body, experimental);
    AliasIsWellFormed(content);
    BodyReplaced(a, Join(kept, " | "));
    ArmSeparatorFits();
    SelectionResplits(a.body, KeepArm(experimental), ARM_SEPARATOR, BAR);
  }
}
