/** The hand-written TypeScript scanner (codex-rs/app-server-protocol/src/export.rs:750-792, 895-991). */
module Scanner {
  import opened Text

  /** A snapshot of `ScanState`. The depth counters never go below zero. */
  datatype Scan = Scan(
    brace: nat, bracket: nat, paren: nat, angle: nat,
    quote: Option<char>, escape: bool, block: bool, line: bool, previous: Option<char>)
  {
    predicate Ignored() { quote.Some? || block || line }

    predicate TopLevel() { brace == 0 && bracket == 0 && paren == 0 && angle == 0 }

    /** A delimiter seen in this state cuts. */
    predicate Cuttable() { TopLevel() && !Ignored() }

    /** Holds of every state the scanner can reach. */
    predicate Valid() {
      && (escape ==> quote.Some?)
      && (quote.Some? ==> quote.value == '"' || quote.value == '\'')
    }
  }

  const START := Scan(0, 0, 0, 0, None, false, false, false, None)

  function Down(n: nat): nat { if n > 0 then n - 1 else 0 }

  /** `ScanState::observe` */
  function Observe(s: Scan, ch: char): Scan {
    var next := s.(previous := Some(ch));
    if s.line then
      next.(line := ch != '\n')
    else if s.block then
      if s.previous == Some('*') && ch == '/' then s.(block := false, previous := None) else next
    else if s.quote.Some? then
      if s.escape then next.(escape := false)
      else if ch == '\\' then next.(escape := true)
      else if ch == s.quote.value then next.(quote := None)
      else next
    else if s.previous == Some('/') && ch == '/' then
      next.(line := true)
    else if s.previous == Some('/') && ch == '*' then
      next.(block := true)
    else
      match ch
      case '"' => next.(quote := Some(ch))
      case '\'' => next.(quote := Some(ch))
      case '{' => next.(brace := s.brace + 1)
      case '}' => next.(brace := Down(s.brace))
      case '[' => next.(bracket := s.bracket + 1)
      case ']' => next.(bracket := Down(s.bracket))
      case '(' => next.(paren := s.paren + 1)
      case ')' => next.(paren := Down(s.paren))
      case '<' => next.(angle := s.angle + 1)
      case '>' => next.(angle := Down(s.angle))
      case _ => next
  }

  /** The mutable scanner of the source. */
  class ScanState {
    var brace: nat
    var bracket: nat
    var paren: nat
    var angle: nat
    var stringDelim: Option<char>
    var escape: bool
    var blockComment: bool
    var lineComment: bool
    var previousChar: Option<char>

    function Snapshot(): Scan
      reads this
    {
      Scan(brace, bracket, paren, angle, stringDelim, escape, blockComment, lineComment, previousChar)
    }

    constructor ()
      ensures Snapshot() == START
    {
      brace, bracket, paren, angle := 0, 0, 0, 0;
      stringDelim, escape, blockComment, lineComment, previousChar := None, false, false, false, None;
    }

    method ObserveChar(ch: char)
      modifies this
      ensures Snapshot() == Observe(old(Snapshot()), ch)
    {
      if lineComment {
        if ch == '\n' { lineComment := false; }
        previousChar := Some(ch);
        return;
      }
      if blockComment {
        if previousChar == Some('*') && ch == '/' {
          blockComment := false;
          previousChar := None;
        } else {
          previousChar := Some(ch);
        }
        return;
      }
      if stringDelim.Some? {
        if escape {
          escape := false;
        } else if ch == '\\' {
          escape := true;
        } else if ch == stringDelim.value {
          stringDelim := None;
        }
        previousChar := Some(ch);
        return;
      }
      if previousChar == Some('/') && ch == '/' {
        lineComment := true;
        previousChar := Some(ch);
        return;
      }
      if previousChar == Some('/') && ch == '*' {
        blockComment := true;
        previousChar := Some(ch);
        return;
      }
      match ch {
        case '"' => stringDelim := Some(ch);
        case '\'' => stringDelim := Some(ch);
        case '{' => brace := brace + 1;
        case '}' => brace := Down(brace);
        case '[' => bracket := bracket + 1;
        case ']' => bracket := Down(bracket);
        case '(' => paren := paren + 1;
        case ')' => paren := Down(paren);
        case '<' => angle := angle + 1;
        case '>' => if angle > 0 { angle := angle - 1; }
        case _ =>
      }
      previousChar := Some(ch);
    }
  }

  /** The state after reading a text. */
  function Run(s: Scan, text: string): Scan
    decreases |text|
  {
    if text == "" then s else Run(Observe(s, text[0]), text[1..])
  }

  /** The text cut at its top-level delimiters; always at least one piece. */
  function Pieces(s: Scan, text: string, delimiters: set<char>): (pieces: seq<string>)
    ensures |pieces| > 0
    decreases |text|
  {
    if text == "" then [""]
    else
      var rest := Pieces(Observe(s, text[0]), text[1..], delimiters);
      if s.Cuttable() && text[0] in delimiters then [""] + rest else Glue([text[0]], rest)
  }

  /** Pieces trimmed, empty ones dropped. */
  function Cleaned(pieces: seq<string>): seq<string> {
    if pieces == [] then []
    else
      var rest := Cleaned(pieces[1..]);
      if Trim(pieces[0]) == "" then rest else [Trim(pieces[0])] + rest
  }

  /** What `split_top_level_multi` returns. */
  function Split(text: string, delimiters: set<char>): seq<string> {
    Cleaned(Pieces(START, text, delimiters))
  }

  lemma {:induction false} RunAppend(s: Scan, a: string, b: string)
    ensures Run(s, a + b) == Run(Run(s, a), b)
    decreases |a|
  {
    if a == "" {
      assert a + b == b;
    } else {
      assert (a + b)[1..] == a[1..] + b;
      RunAppend(Observe(s, a[0]), a[1..], b);
    }
  }

  lemma {:induction false} CleanedAppend(a: seq<string>, b: seq<string>)
    ensures Cleaned(a + b) == Cleaned(a) + Cleaned(b)
  {
    if a == [] {
      assert a + b == b;
    } else {
      assert (a + b)[1..] == a[1..] + b;
      CleanedAppend(a[1..], b);
    }
  }

  /** A text, then the rest of the input: the first piece of the rest is glued on. */
  function Glue(head: string, pieces: seq<string>): seq<string>
    requires |pieces| > 0
  {
    [head + pieces[0]] + pieces[1..]
  }

  lemma GlueEmpty(pieces: seq<string>)
    requires |pieces| > 0
    ensures Glue("", pieces) == pieces
  {
    assert "" + pieces[0] == pieces[0];
  }

  lemma GlueCut(head: string, rest: seq<string>)
    ensures Glue(head, [""] + rest) == [head] + rest
  {
    assert head + "" == head;
    assert ([""] + rest)[1..] == rest;
  }

  lemma GlueChar(head: string, ch: char, rest: seq<string>)
    requires |rest| > 0
    ensures Glue(head, Glue([ch], rest)) == Glue(head + [ch], rest)
  {
    assert head + ([ch] + rest[0]) == head + [ch] + rest[0];
  }

  lemma CleanedFirst(head: string, rest: seq<string>)
    ensures Cleaned([head] + rest) == (if Trim(head) == "" then [] else [Trim(head)]) + Cleaned(rest)
  {
    assert ([head] + rest)[1..] == rest;
  }

  /** The pieces of an input still to be read, behind the text read since the last cut. */
  ghost function Ahead(s: Scan, input: string, start: nat, index: nat, delimiters: set<char>): seq<string>
    requires start <= index <= |input|
  {
    Glue(input[start..index], Pieces(s, input[index..], delimiters))
  }

  lemma AheadStep(s: Scan, input: string, start: nat, index: nat, delimiters: set<char>)
    requires start <= index < |input|
    ensures Ahead(s, input, start, index, delimiters) ==
      var s' := Observe(s, input[index]);
      if s.Cuttable() && input[index] in delimiters
      then [input[start..index]] + Ahead(s', input, index + 1, index + 1, delimiters)
      else Ahead(s', input, start, index + 1, delimiters)
  {
    var ch := input[index];
    var head := input[start..index];
    assert input[index..][1..] == input[index + 1..];
    var rest := Pieces(Observe(s, ch), input[index + 1..], delimiters);
    if s.Cuttable() && ch in delimiters {
      GlueCut(head, rest);
      assert input[index + 1..index + 1] == "";
      GlueEmpty(rest);
    } else {
      GlueChar(head, ch, rest);
      assert input[start..index + 1] == head + [ch];
    }
  }

  /** What the loop owes after a cut: the trimmed piece, if any, goes to the parts. */
  lemma AheadCut(s: Scan, input: string, start: nat, index: nat, delimiters: set<char>, parts: seq<string>, part: string)
    requires start <= index < |input| && s.Cuttable() && input[index] in delimiters && part == Trim(input[start..index])
    ensures parts + Cleaned(Ahead(s, input, start, index, delimiters)) ==
      (if part == "" then parts else parts + [part])
      + Cleaned(Ahead(Observe(s, input[index]), input, index + 1, index + 1, delimiters))
  {
    var rest := Ahead(Observe(s, input[index]), input, index + 1, index + 1, delimiters);
    AheadStep(s, input, start, index, delimiters);
    CleanedFirst(input[start..index], rest);
    if part == "" {
      assert [] + Cleaned(rest) == Cleaned(rest);
    } else {
      assert parts + ([part] + Cleaned(rest)) == parts + [part] + Cleaned(rest);
    }
  }

  lemma AheadEnd(s: Scan, input: string, start: nat, delimiters: set<char>)
    requires start <= |input|
    ensures Cleaned(Ahead(s, input, start, |input|, delimiters)) ==
      if Trim(input[start..]) == "" then [] else [Trim(input[start..])]
  {
    assert input[|input|..] == "" && input[start..|input|] == input[start..];
    GlueCut(input[start..], []);
    assert [""] + [] == [""];
    CleanedFirst(input[start..], []);
  }

  /** Cuts a part off before a top-level delimiter. */
  method CutBefore(s: Scan, input: string, start: nat, index: nat, delimiters: set<char>, parts: seq<string>)
    returns (start': nat, parts': seq<string>)
    requires start <= index < |input|
    ensures start' <= index + 1
    ensures parts' + Cleaned(Ahead(Observe(s, input[index]), input, start', index + 1, delimiters)) ==
      parts + Cleaned(Ahead(s, input, start, index, delimiters))
  {
    start', parts' := start, parts;
    if s.Cuttable() && input[index] in delimiters {
      var part := Trim(input[start..index]);
      AheadCut(s, input, start, index, delimiters, parts, part);
      if part != "" {
        parts' := parts + [part];
      }
      start' := index + 1;
    } else {
      AheadStep(s, input, start, index, delimiters);
    }
  }

  /** `split_top_level_multi` */
  method SplitTopLevel(input: string, delimiters: set<char>) returns (parts: seq<string>)
    ensures parts == Split(input, delimiters)
  {
    var state := new ScanState();
    var start := 0;
    parts := [];
    assert input[0..] == input && input[0..0] == "";
    GlueEmpty(Pieces(START, input, delimiters));
    for index := 0 to |input|
      invariant 0 <= start <= index
      invariant Split(input, delimiters) ==
        parts + Cleaned(Ahead(state.Snapshot(), input, start, index, delimiters))
    {
      var s := state.Snapshot();
      start, parts := CutBefore(s, input, start, index, delimiters, parts);
      state.ObserveChar(input[index]);
    }
    var tail := Trim(input[start..]);
    AheadEnd(state.Snapshot(), input, start, delimiters);
    if tail != "" {
      parts := parts + [tail];
    }
  }
}
