/** Reading the `method` of a request union arm
    (codex-rs/app-server-protocol/src/export.rs:750-767, 794-893). */
module ArmParser {
  import opened Text
  import opened Scanner

  predicate IsIdentChar(c: char) {
    'a' <= c <= 'z' || 'A' <= c <= 'Z' || '0' <= c <= '9' || c == '_'
  }

  // ----- brace span -----

  /** The rest of the scan of `find_top_level_brace_span`, from `index` on. */
  function BraceSpan(s: Scan, text: string, index: nat, open: Option<nat>): Option<(nat, nat)>
    requires index <= |text|
    decreases |text| - index
  {
    if index == |text| then None
    else
      var open' := if !s.Ignored() && text[index] == '{' && s.TopLevel() then Some(index) else open;
      var s' := Observe(s, text[index]);
      if !s'.Ignored() && text[index] == '}' && s'.TopLevel() && open'.Some? then Some((open'.value, index))
      else BraceSpan(s', text, index + 1, open')
  }

  /** `find_top_level_brace_span` */
  method FindTopLevelBraceSpan(input: string) returns (span: Option<(nat, nat)>)
    ensures span == BraceSpan(START, input, 0, None)
  {
    var state := new ScanState();
    var open: Option<nat> := None;
    for index := 0 to |input|
      invariant BraceSpan(START, input, 0, None) == BraceSpan(state.Snapshot(), input, index, open)
    {
      var before := state.Snapshot();
      if !before.Ignored() && input[index] == '{' && before.TopLevel() {
        open := Some(index);
      }
      state.ObserveChar(input[index]);
      var after := state.Snapshot();
      if !after.Ignored() && input[index] == '}' && after.TopLevel() && open.Some? {
        return Some((open.value, index));
      }
    }
    span := None;
  }

  // ----- string literals -----

  /** Where the literal opened by `quote` closes, looking from `index` on. */
  function ClosingQuote(text: string, index: nat, quote: char, escape: bool): Option<nat>
    requires index <= |text|
    decreases |text| - index
  {
    if index == |text| then None
    else if escape then ClosingQuote(text, index + 1, quote, false)
    else if text[index] == '\\' then ClosingQuote(text, index + 1, quote, true)
    else if text[index] == quote then Some(index)
    else ClosingQuote(text, index + 1, quote, false)
  }

  lemma {:induction false} ClosingQuoteBounds(text: string, index: nat, quote: char, escape: bool)
    requires index <= |text|
    ensures ClosingQuote(text, index, quote, escape).Some? ==>
      index <= ClosingQuote(text, index, quote, escape).value < |text|
    decreases |text| - index
  {
    if index < |text| {
      ClosingQuoteBounds(text, index + 1, quote, !escape && text[index] == '\\');
    }
  }

  /** The literal's raw text and how much input it takes. */
  function StringLiteral(text: string): Option<(string, nat)> {
    if text == "" || (text[0] != '"' && text[0] != '\'') then None
    else
      ClosingQuoteBounds(text, 1, text[0], false);
      match ClosingQuote(text, 1, text[0], false)
      case Some(end) => Some((text[1..end], end + 1))
      case None => None
  }

  /** `parse_string_literal` */
  method ParseStringLiteral(input: string) returns (literal: Option<(string, nat)>)
    ensures literal == StringLiteral(input)
  {
    if input == "" || (input[0] != '"' && input[0] != '\'') {
      return None;
    }
    var quote, escape := input[0], false;
    for index := 1 to |input|
      invariant ClosingQuote(input, 1, quote, false) == ClosingQuote(input, index, quote, escape)
    {
      if escape {
        escape := false;
      } else if input[index] == '\\' {
        escape := true;
      } else if input[index] == quote {
        return Some((input[1..index], index + 1));
      }
    }
    literal := None;
  }

  // ----- properties -----

  function IdentLength(text: string): (n: nat)
    ensures n <= |text|
  {
    if text != "" && IsIdentChar(text[0]) then 1 + IdentLength(text[1..]) else 0
  }

  function DropQuestionMark(text: string): string {
    if text != "" && text[0] == '?' then TrimStart(text[1..]) else text
  }

  /** `parse_property_name` */
  function PropertyName(input: string): Option<string> {
    var trimmed := TrimStart(input);
    match StringLiteral(trimmed)
    case Some((literal, consumed)) =>
      LiteralFits(trimmed);
      if ":" <= TrimStart(trimmed[consumed..]) then Some(literal) else None
    case None =>
      var n := IdentLength(trimmed);
      if n > 0 && ":" <= DropQuestionMark(TrimStart(trimmed[n..])) then Some(trimmed[..n]) else None
  }

  lemma LiteralFits(text: string)
    ensures StringLiteral(text).Some? ==> StringLiteral(text).value.1 <= |text|
  {
    if text != "" {
      ClosingQuoteBounds(text, 1, text[0], false);
    }
  }

  function IndexOf(text: string, c: char): (i: Option<nat>)
    ensures i.Some? ==> i.value < |text| && text[i.value] == c && c !in text[..i.value]
    ensures i.None? ==> c !in text
  {
    if text == "" then None
    else if text[0] == c then Some(0)
    else
      match IndexOf(text[1..], c)
      case Some(i) => assert text[..i + 1] == [text[0]] + text[1..][..i]; Some(i + 1)
      case None => None
  }

  lemma {:induction false} FirstAt(text: string, c: char, i: nat)
    requires i < |text| && text[i] == c && forall j :: 0 <= j < i ==> text[j] != c
    ensures IndexOf(text, c) == Some(i)
  {
    if i > 0 {
      FirstAt(text[1..], c, i - 1);
    }
  }

  /** `parse_property`: a property's name and the text behind the first colon. */
  function Property(input: string): Option<(string, string)> {
    match PropertyName(input)
    case Some(name) =>
      (match IndexOf(input, ':')
       case Some(i) => Some((name, TrimStart(input[i + 1..])))
       case None => None)
    case None => None
  }

  /** The first field named `method`; a value that is no string literal ends the search. */
  function MethodOf(fields: seq<string>): Option<string> {
    if fields == [] then None
    else
      match Property(fields[0])
      case Some((name, value)) =>
        if name != "method" then MethodOf(fields[1..])
        else
          (match StringLiteral(TrimStart(value))
           case Some((literal, _)) => Some(literal)
           case None => None)
      case None => MethodOf(fields[1..])
  }

  /** A span opens at a `{` strictly before the `}` it closes at. */
  lemma {:induction false} BraceSpanBounds(s: Scan, text: string, index: nat, open: Option<nat>)
    requires index <= |text| && (open.Some? ==> open.value < index && text[open.value] == '{')
    ensures var span := BraceSpan(s, text, index, open);
      span.Some? ==> span.value.0 < span.value.1 < |text| && text[span.value.0] == '{' && text[span.value.1] == '}'
    decreases |text| - index
  {
    if index < |text| {
      var open' := if !s.Ignored() && text[index] == '{' && s.TopLevel() then Some(index) else open;
      BraceSpanBounds(Observe(s, text[index]), text, index + 1, open');
    }
  }

  /** `extract_method_from_arm` */
  function ExtractMethod(arm: string): Option<string> {
    BraceSpanBounds(START, arm, 0, None);
    match BraceSpan(START, arm, 0, None)
    case Some((open, close)) => MethodOf(Split(arm[open + 1..close], {','}))
    case None => None
  }

  /** The loop over the fields of an arm. */
  method MethodAmong(fields: seq<string>) returns (found: Option<string>)
    ensures found == MethodOf(fields)
  {
    for i := 0 to |fields|
      invariant MethodOf(fields) == MethodOf(fields[i..])
    {
      assert fields[i..][1..] == fields[i + 1..];
      var property := Property(fields[i]);
      if property.None? || property.value.0 != "method" {
        continue;
      }
      var literal := ParseStringLiteral(TrimStart(property.value.1));
      return if literal.Some? then Some(literal.value.0) else None;
    }
    found := None;
  }

  method ExtractMethodFromArm(arm: string) returns (found: Option<string>)
    ensures found == ExtractMethod(arm)
  {
    var span := FindTopLevelBraceSpan(arm);
    if span.None? {
      return None;
    }
    BraceSpanBounds(START, arm, 0, None);
    var (open, close) := span.value;
    var fields := SplitTopLevel(arm[open + 1..close], {','});
    found := MethodAmong(fields);
  }
}
