/** String literals, property names and methods, read off the text (codex-rs/app-server-protocol/src/export.rs:794-893). */
module PropertyReading {
  import opened Text
  import opened Scanner
  import opened Splitting
  import opened Lexing
  import opened ArmParser

  // ----- string literals -----

  /** A quote, a body that does not close it, the quote again, and anything. */
  predicate StartsWithLiteral(text: string, quote: char, body: string, rest: string) {
    IsQuote(quote) && LiteralBody(body, quote) && text == [quote] + body + [quote] + rest
  }

  lemma {:induction false} QuoteFound(text: string, index: nat, body: string, quote: char, rest: string)
    requires index <= |text| && text[index..] == body + [quote] + rest && LiteralBody(body, quote) && IsQuote(quote)
    ensures ClosingQuote(text, index, quote, false) == Some(index + |body|)
    decreases |body|
  {
    var from := text[index..];
    assert from[0] == text[index];
    if body == "" {
    } else if body[0] == '\\' {
      assert text[index + 2..] == from[2..] == body[2..] + [quote] + rest;
      QuoteFound(text, index + 2, body[2..], quote, rest);
    } else {
      assert text[index + 1..] == from[1..] == body[1..] + [quote] + rest;
      QuoteFound(text, index + 1, body[1..], quote, rest);
    }
  }

  lemma {:induction false} QuoteCloses(text: string, index: nat, quote: char)
    requires index <= |text| && IsQuote(quote) && ClosingQuote(text, index, quote, false).Some?
    ensures var end := ClosingQuote(text, index, quote, false).value;
      index <= end < |text| && text[end] == quote && LiteralBody(text[index..end], quote)
    decreases |text| - index
  {
    var end := ClosingQuote(text, index, quote, false).value;
    if text[index] == '\\' {
      QuoteCloses(text, index + 2, quote);
      assert text[index..end][2..] == text[index + 2..end];
    } else if text[index] != quote {
      QuoteCloses(text, index + 1, quote);
      assert text[index..end][1..] == text[index + 1..end];
    }
  }

  lemma LiteralFound(text: string, quote: char, body: string, rest: string)
    requires StartsWithLiteral(text, quote, body, rest)
    ensures StringLiteral(text) == Some((body, |body| + 2))
  {
    assert text[1..] == body + [quote] + rest;
    QuoteFound(text, 1, body, quote, rest);
    assert text[1..1 + |body|] == body;
  }

  lemma LiteralParts(text: string) returns (quote: char, body: string, rest: string)
    requires StringLiteral(text).Some?
    ensures StartsWithLiteral(text, quote, body, rest) && StringLiteral(text).value == (body, |body| + 2)
  {
    quote := text[0];
    QuoteCloses(text, 1, quote);
    var end := ClosingQuote(text, 1, quote, false).value;
    body, rest := text[1..end], text[end + 1..];
    assert text == [quote] + body + [quote] + rest;
  }

  /** The literal read is the one the text starts with. */
  lemma StringLiteralExactly(text: string, body: string)
    ensures (exists n :: StringLiteral(text) == Some((body, n))) <==> exists quote, rest :: StartsWithLiteral(text, quote, body, rest)
    ensures StringLiteral(text).Some? && StringLiteral(text).value.0 == body ==> StringLiteral(text).value.1 == |body| + 2
  {
    if StringLiteral(text).Some? {
      var quote, found, rest := LiteralParts(text);
    }
    forall quote, rest | StartsWithLiteral(text, quote, body, rest) ensures StringLiteral(text) == Some((body, |body| + 2)) {
      LiteralFound(text, quote, body, rest);
    }
  }

  // ----- property names -----

  predicate WordChar(c: char) {
    'a' <= c <= 'z' || 'A' <= c <= 'Z' || '0' <= c <= '9' || c == '_'
  }

  predicate Word(name: string) {
    name != "" && forall i :: 0 <= i < |name| ==> WordChar(name[i])
  }

  /** Blanks, then a colon. */
  predicate ColonNext(text: string) {
    ":" <= TrimStart(text)
  }

  /** Blanks, perhaps a question mark and more blanks, then a colon. */
  predicate OptionalColonNext(text: string) {
    var rest := TrimStart(text);
    ColonNext(if "?" <= rest then rest[1..] else rest)
  }

  /** The text names a property: a literal or a word, and a colon behind it. */
  ghost predicate NamesProperty(text: string, name: string) {
    || (exists quote, rest :: StartsWithLiteral(text, quote, name, rest) && ColonNext(rest))
    || (Word(name) && name <= text && (name < text ==> !WordChar(text[|name|])) && OptionalColonNext(text[|name|..]))
  }

  lemma {:induction false} WordLength(text: string)
    ensures forall i :: 0 <= i < IdentLength(text) ==> WordChar(text[i])
    ensures IdentLength(text) < |text| ==> !WordChar(text[IdentLength(text)])
  {
    if text != "" && IsIdentChar(text[0]) {
      WordLength(text[1..]);
    }
  }

  lemma {:induction false} TrimStartTwice(s: string)
    ensures TrimStart(TrimStart(s)) == TrimStart(s)
  {
    if s != "" && IsWhitespace(s[0]) {
      TrimStartTwice(s[1..]);
    }
  }

  lemma WordReads(text: string, name: string)
    requires Word(name) && name <= text && (name < text ==> !WordChar(text[|name|]))
    ensures IdentLength(text) == |name| && text[..|name|] == name && StringLiteral(text).None?
  {
    WordLength(text);
    var n := IdentLength(text);
    assert forall k :: 0 <= k < |name| ==> text[k] == name[k];
  }

  lemma NameOfWord(text: string)
    requires TrimStart(text) == text && StringLiteral(text).None?
    ensures PropertyName(text) ==
      var n := IdentLength(text);
      if n > 0 && OptionalColonNext(text[n..]) then Some(text[..n]) else None
  {
    var rest := TrimStart(text[IdentLength(text)..]);
    TrimStartTwice(text[IdentLength(text)..]);
  }

  lemma NameIsRead(text: string, name: string)
    requires TrimStart(text) == text && NamesProperty(text, name)
    ensures PropertyName(text) == Some(name)
  {
    if exists quote, rest :: StartsWithLiteral(text, quote, name, rest) && ColonNext(rest) {
      var quote, rest :| StartsWithLiteral(text, quote, name, rest) && ColonNext(rest);
      LiteralFound(text, quote, name, rest);
      assert text[|name| + 2..] == rest;
    } else {
      WordReads(text, name);
      NameOfWord(text);
    }
  }

  lemma ReadIsName(text: string)
    requires TrimStart(text) == text && PropertyName(text).Some?
    ensures NamesProperty(text, PropertyName(text).value)
  {
    if StringLiteral(text).Some? {
      var quote, body, rest := LiteralParts(text);
      assert text[|body| + 2..] == rest;
    } else {
      NameOfWord(text);
      WordLength(text);
      var n := IdentLength(text);
      assert text[..n] <= text;
    }
  }

  /** The name read is the one the text, behind its blanks, names. */
  lemma PropertyNameExactly(input: string, name: string)
    ensures PropertyName(input) == Some(name) <==> NamesProperty(TrimStart(input), name)
  {
    var text := TrimStart(input);
    TrimStartTwice(input);
    assert PropertyName(input) == PropertyName(text);
    if PropertyName(text).Some? {
      ReadIsName(text);
    }
    if NamesProperty(text, name) {
      NameIsRead(text, name);
    }
  }

  // ----- methods -----

  /** The text behind the first colon, without leading blanks. */
  ghost predicate ValueBehindColon(field: string, value: string) {
    exists before, after :: field == before + ":" + after && ':' !in before && value == TrimStart(after)
  }

  ghost predicate IsMethodField(field: string) {
    NamesProperty(TrimStart(field), "method")
  }

  lemma MethodFieldReads(field: string)
    ensures (Property(field).Some? && Property(field).value.0 == "method") <==> IsMethodField(field)
    ensures IsMethodField(field) ==> ValueBehindColon(field, Property(field).value.1)
  {
    PropertyNameExactly(field, "method");
    if IsMethodField(field) {
      HasColon(field);
      var i := IndexOf(field, ':').value;
      assert field == field[..i] + ":" + field[i + 1..];
    }
  }

  lemma {:induction false} TrimStartKeeps(s: string, c: char)
    requires c in TrimStart(s)
    ensures c in s
  {
    if s != "" && IsWhitespace(s[0]) {
      TrimStartKeeps(s[1..], c);
    }
  }

  lemma ColonInside(text: string)
    requires ColonNext(text) || OptionalColonNext(text)
    ensures ':' in text
  {
    var rest := TrimStart(text);
    var inner := if OptionalColonNext(text) && !ColonNext(text) && "?" <= rest then rest[1..] else rest;
    assert OptionalColonNext(text) ==> ColonNext(if "?" <= rest then rest[1..] else rest);
    if ColonNext(text) {
      assert rest[0] == ':';
      TrimStartKeeps(text, ':');
    } else {
      assert TrimStart(inner)[0] == ':';
      TrimStartKeeps(inner, ':');
      TrimStartKeeps(text, ':');
    }
  }

  lemma HasColon(field: string)
    requires IsMethodField(field)
    ensures ':' in field
  {
    var text := TrimStart(field);
    if exists quote, rest :: StartsWithLiteral(text, quote, "method", rest) && ColonNext(rest) {
      var quote, rest :| StartsWithLiteral(text, quote, "method", rest) && ColonNext(rest);
      ColonInside(rest);
    } else {
      var rest := text[|"method"|..];
      ColonInside(rest);
      assert text == text[..|"method"|] + rest;
    }
    TrimStartKeeps(field, ':');
  }

  ghost predicate FirstMethodField(fields: seq<string>, k: nat) {
    k < |fields| && IsMethodField(fields[k]) && forall j :: 0 <= j < k ==> !IsMethodField(fields[j])
  }

  lemma {:induction false} MethodSearch(fields: seq<string>) returns (k: nat)
    ensures k < |fields| ==> FirstMethodField(fields, k) && Property(fields[k]).Some?
    ensures k < |fields| ==>
      MethodOf(fields) == var literal := StringLiteral(TrimStart(Property(fields[k]).value.1));
        if literal.Some? then Some(literal.value.0) else None
    ensures k >= |fields| ==> MethodOf(fields).None? && forall j :: 0 <= j < |fields| ==> !IsMethodField(fields[j])
  {
    if fields == [] {
      k := 0;
    } else {
      MethodFieldReads(fields[0]);
      if IsMethodField(fields[0]) {
        k := 0;
      } else {
        var rest := fields[1..];
        assert forall j :: 0 < j < |fields| ==> fields[j] == rest[j - 1];
        var n := MethodSearch(rest);
        k := n + 1;
      }
    }
  }

  lemma ColonIsFirst(field: string, before: string, after: string)
    requires field == before + ":" + after && ':' !in before
    ensures IndexOf(field, ':') == Some(|before|)
  {
    FirstAt(field, ':', |before|);
  }

  lemma OneValue(field: string, v: string, w: string)
    requires ValueBehindColon(field, v) && ValueBehindColon(field, w)
    ensures v == w && TrimStart(v) == v
  {
    var before, after :| field == before + ":" + after && ':' !in before && v == TrimStart(after);
    var before', after' :| field == before' + ":" + after' && ':' !in before' && w == TrimStart(after');
    ColonIsFirst(field, before, after);
    ColonIsFirst(field, before', after');
    assert after == field[|before| + 1..] == after';
    TrimStartTwice(after);
  }

  /** The field gives the method. */
  ghost predicate GivesMethod(field: string, m: string) {
    exists value, quote, rest :: ValueBehindColon(field, value) && StartsWithLiteral(value, quote, m, rest)
  }

  lemma GivenMethod(field: string, m: string, value: string)
    requires ValueBehindColon(field, value)
    ensures GivesMethod(field, m) <==> exists n :: StringLiteral(TrimStart(value)) == Some((m, n))
  {
    OneValue(field, value, value);
    StringLiteralExactly(value, m);
    forall v, quote, rest | ValueBehindColon(field, v) && StartsWithLiteral(v, quote, m, rest) ensures v == value {
      OneValue(field, v, value);
    }
  }

  /** The method of an arm is the literal behind the colon of its first field named `method`. */
  lemma MethodExactly(fields: seq<string>, m: string)
    ensures MethodOf(fields) == Some(m) <==> exists k: nat :: FirstMethodField(fields, k) && GivesMethod(fields[k], m)
  {
    var k := MethodSearch(fields);
    if k < |fields| {
      MethodFieldReads(fields[k]);
      GivenMethod(fields[k], m, Property(fields[k]).value.1);
    }
  }
}
