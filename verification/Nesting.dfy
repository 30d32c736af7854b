/** Texts inside a pair of braces: they are scanned as they are on their own, one level deeper, until they
    close a brace they did not open. */
module Nesting {
  import opened Text
  import opened Scanner
  import opened Splitting
  import opened ArmParser

  function Deeper(s: Scan): Scan {
    s.(brace := s.brace + 1)
  }

  function Lift(s: Scan, deep: bool): Scan {
    if deep then Deeper(s) else s
  }

  /** A closing brace that nothing in the text opened. */
  predicate Unmatched(s: Scan, ch: char) {
    !s.Ignored() && ch == '}' && s.brace == 0
  }

  predicate NeverCloses(s: Scan, text: string)
    decreases |text|
  {
    text == "" || (!Unmatched(s, text[0]) && NeverCloses(Observe(s, text[0]), text[1..]))
  }

  lemma LiftStep(s: Scan, deep: bool, ch: char)
    ensures Observe(Lift(s, deep), ch) == Lift(Observe(s, ch), deep && !Unmatched(s, ch))
  {
  }

  /** One level deeper a text is read as it is on its own, until it closes that level. */
  lemma {:induction false} LiftRun(s: Scan, deep: bool, text: string)
    ensures Run(Lift(s, deep), text) == Lift(Run(s, text), deep && NeverCloses(s, text))
    decreases |text|
  {
    if text != "" {
      LiftStep(s, deep, text[0]);
      LiftRun(Observe(s, text[0]), deep && !Unmatched(s, text[0]), text[1..]);
    }
  }

  /** Nothing cuts one level deeper. */
  lemma {:induction false} DeepRun(s: Scan, text: string, delimiters: set<char>)
    requires NeverCloses(s, text)
    ensures Run(Deeper(s), text) == Deeper(Run(s, text)) && NoCut(Deeper(s), text, delimiters)
    decreases |text|
  {
    if text != "" {
      LiftStep(s, true, text[0]);
      DeepRun(Observe(s, text[0]), text[1..], delimiters);
    }
  }

  lemma {:induction false} NeverClosesAppend(s: Scan, a: string, b: string)
    ensures NeverCloses(s, a + b) <==> NeverCloses(s, a) && NeverCloses(Run(s, a), b)
    decreases |a|
  {
    if a == "" {
      assert a + b == b;
    } else {
      assert (a + b)[1..] == a[1..] + b;
      NeverClosesAppend(Observe(s, a[0]), a[1..], b);
    }
  }

  lemma NeverClosesAlike(s: Scan, t: Scan, text: string)
    requires Base(s) && Base(t)
    ensures NeverCloses(s, text) == NeverCloses(t, text)
  {
    if text != "" {
      BaseForgets(s, t, text[0]);
    }
  }

  lemma {:induction false} BlankNeverCloses(s: Scan, text: string)
    requires AllWhitespace(text)
    ensures NeverCloses(s, text)
    decreases |text|
  {
    if text != "" {
      WhitespaceIsHarmless(text[0]);
      BlankNeverCloses(Observe(s, text[0]), text[1..]);
    }
  }

  lemma FieldThenComma(s: Scan, field: string)
    requires Base(s) && Settles(field)
    ensures NeverCloses(s, field + ", ") <==> NeverCloses(START, field)
    ensures Base(Run(s, field + ", "))
  {
    NeverClosesAlike(s, START, field);
    NeverClosesAppend(s, field, ", ");
    RunAppend(s, field, ", ");
    BaseRunsAlike(s, START, field, {});
    RunValid(START, field);
    var t := Run(s, field);
    PlainStep(t, ',');
    PlainStep(Observe(t, ','), ' ');
    assert ", "[1..] == " " && " "[1..] == "";
  }

  // ----- what a brace span notices -----

  /** The search for a span notes an opening brace here, or ends. */
  predicate Marks(s: Scan, ch: char) {
    var s' := Observe(s, ch);
    (!s.Ignored() && ch == '{' && s.TopLevel()) || (!s'.Ignored() && ch == '}' && s'.TopLevel())
  }

  /** Nothing in the text is noted. */
  predicate Quiet(s: Scan, text: string)
    decreases |text|
  {
    text == "" || (!Marks(s, text[0]) && Quiet(Observe(s, text[0]), text[1..]))
  }

  lemma {:induction false} QuietAppend(s: Scan, a: string, b: string)
    ensures Quiet(s, a + b) <==> Quiet(s, a) && Quiet(Run(s, a), b)
    decreases |a|
  {
    if a == "" {
      assert a + b == b;
    } else {
      assert (a + b)[1..] == a[1..] + b;
      QuietAppend(Observe(s, a[0]), a[1..], b);
    }
  }

  /** A text that closes only its own braces goes unnoticed inside others. */
  lemma {:induction false} QuietInside(s: Scan, text: string)
    requires NeverCloses(s, text)
    ensures Quiet(Deeper(s), text)
    decreases |text|
  {
    if text != "" {
      LiftStep(s, true, text[0]);
      QuietInside(Observe(s, text[0]), text[1..]);
    }
  }

  /** What goes unnoticed at top level goes unnoticed one level deeper. */
  lemma {:induction false} QuietDeeper(s: Scan, text: string)
    requires Quiet(s, text)
    ensures Quiet(Deeper(s), text)
    decreases |text|
  {
    if text != "" {
      LiftStep(s, true, text[0]);
      if !Unmatched(s, text[0]) {
        QuietDeeper(Observe(s, text[0]), text[1..]);
      }
    }
  }

  lemma QuietAlike(s: Scan, t: Scan, deep: bool, text: string)
    requires Base(s) && Base(t)
    ensures Quiet(Lift(s, deep), text) == Quiet(Lift(t, deep), text)
  {
    if text != "" {
      BaseForgets(s, t, text[0]);
      LiftStep(s, deep, text[0]);
      LiftStep(t, deep, text[0]);
    }
  }

  lemma {:induction false} QuietSpan(s: Scan, text: string, index: nat, end: nat, open: nat)
    requires index <= end <= |text| && Quiet(s, text[index..end])
    ensures BraceSpan(s, text, index, Some(open)) == BraceSpan(Run(s, text[index..end]), text, end, Some(open))
    decreases end - index
  {
    if index < end {
      assert text[index..end][1..] == text[index + 1..end];
      QuietSpan(Observe(s, text[index]), text, index + 1, end, open);
    }
  }

  // ----- brace spans -----

  /** What the scanner knows right behind a top-level opening brace. */
  const OPENED := START.(previous := Some('{'))

  /** A closing brace read here leads to top level. */
  predicate Shuts(s: Scan) {
    var after := Observe(s, '}');
    !after.Ignored() && after.TopLevel()
  }

  lemma ShutsMeans(s: Scan)
    requires s.Valid()
    ensures Shuts(s) <==> !s.Ignored() && s.brace <= 1 && SameDepth(s, START.(brace := s.brace))
  {
  }

  lemma SpanClosesLater(s: Scan, text: string, index: nat, open: Option<nat>)
    requires index <= |text| && (open.Some? ==> open.value < index)
    ensures var span := BraceSpan(s, text, index, open);
      span.Some? ==> span.value.1 >= index && (open == Some(span.value.0) || span.value.0 >= index)
    decreases |text| - index
  {
    if index < |text| {
      var open' := if !s.Ignored() && text[index] == '{' && s.TopLevel() then Some(index) else open;
      SpanClosesLater(Observe(s, text[index]), text, index + 1, open');
    }
  }

  /** Between its braces a span noted nothing. */
  lemma {:induction false} SpanIsQuiet(s: Scan, text: string, index: nat, open: nat, close: nat)
    requires open < index <= close < |text| && BraceSpan(s, text, index, Some(open)) == Some((open, close))
    ensures Quiet(s, text[index..close]) && Shuts(Run(s, text[index..close]))
    decreases close - index
  {
    if index < close {
      var s' := Observe(s, text[index]);
      SpanClosesLater(s', text, index + 1, Some(index));
      assert text[index..close][1..] == text[index + 1..close];
      SpanIsQuiet(s', text, index + 1, open, close);
    } else {
      SpanClosesLater(Observe(s, text[index]), text, index + 1, Some(open));
      SpanClosesLater(Observe(s, text[index]), text, index + 1, Some(index));
    }
  }

  /** Up to its opening brace a span depends only on the text so far. */
  lemma {:induction false} SpanFromOpening(s: Scan, t: string, u: string, index: nat, open: Option<nat>, o: nat, c: nat)
    requires s.Valid() && index <= o < |t| && o < |u| && t[..o + 1] == u[..o + 1]
    requires (open.Some? ==> open.value < index) && BraceSpan(s, t, index, open) == Some((o, c))
    ensures BraceSpan(s, u, index, open) == BraceSpan(Deeper(OPENED), u, o + 1, Some(o))
    decreases o - index
  {
    assert t[index] == t[..o + 1][index] == u[index];
    var open' := if !s.Ignored() && t[index] == '{' && s.TopLevel() then Some(index) else open;
    var s' := Observe(s, t[index]);
    ObserveValid(s, t[index]);
    SpanClosesLater(s', t, index + 1, open');
    if index < o {
      SpanFromOpening(s', t, u, index + 1, open', o, c);
    } else {
      assert open' == Some(o);
      assert s' == Deeper(OPENED);
    }
  }

  /** The text in front of a body, up to and with its opening brace; the body; and the rest, from its
      closing brace on. */
  predicate Opened(opening: string, inner: string, after: string) {
    opening != "" && BraceSpan(START, opening + inner + after, 0, None) == Some((|opening| - 1, |opening + inner|))
  }

  /** The text fits between a pair of braces: it goes unnoticed and leads back to top level behind them. */
  predicate Enclosed(inner: string) {
    Quiet(Deeper(OPENED), inner) && Shuts(Run(Deeper(OPENED), inner))
  }

  lemma OpenedMeansEnclosed(text: string, inner: string, open: nat, close: nat)
    requires open < close < |text| && inner == text[open + 1..close] && text[close] == '}'
    ensures BraceSpan(Deeper(OPENED), text, open + 1, Some(open)) == Some((open, close)) <==> Enclosed(inner)
  {
    if Enclosed(inner) {
      QuietSpan(Deeper(OPENED), text, open + 1, close, open);
    }
    if BraceSpan(Deeper(OPENED), text, open + 1, Some(open)) == Some((open, close)) {
      SpanIsQuiet(Deeper(OPENED), text, open + 1, open, close);
    }
  }

  lemma OpenedPlaces(opening: string, inner: string, after: string, text: string)
    requires opening != "" && after != "" && text == opening + inner + after
    ensures text[..|opening|] == opening && text[|opening|..|opening + inner|] == inner && text[|opening + inner|] == after[0]
  {
  }

  /** Whatever text is put between the braces of a body, the braces are found around it exactly when it
      fits between them. */
  lemma SpanOfReplaced(opening: string, inner: string, after: string, other: string)
    requires Opened(opening, inner, after) && after != "" && after[0] == '}'
    ensures Opened(opening, other, after) <==> Enclosed(other)
  {
    var t, u, o := opening + inner + after, opening + other + after, |opening| - 1;
    OpenedPlaces(opening, inner, after, t);
    OpenedPlaces(opening, other, after, u);
    SpanFromOpening(START, t, u, 0, None, o, |opening + inner|);
    OpenedMeansEnclosed(u, other, o, |opening + other|);
  }
}
