/** Which pair of braces is found, read off the text (codex-rs/app-server-protocol/src/export.rs:750-767). */
module Spans {
  import opened Text
  import opened Scanner
  import opened Splitting
  import opened Lexing
  import opened ArmParser

  /** The places of a text with nothing open before them. */
  ghost function Tops(text: string): nat -> bool {
    (i: nat) => i <= |text| && AtTop(text[..i])
  }

  /** An opening brace with nothing open before it. */
  predicate Opens(text: string, top: nat -> bool, o: nat) {
    o < |text| && text[o] == '{' && top(o)
  }

  /** A closing brace that leaves nothing open. */
  predicate Closes(text: string, top: nat -> bool, c: nat) {
    c < |text| && text[c] == '}' && top(c + 1)
  }

  ghost predicate OpenBefore(text: string, top: nat -> bool, i: nat) {
    exists o: nat :: o < i && Opens(text, top, o)
  }

  /** No closing brace before `i` ends a span. */
  ghost predicate Unended(text: string, top: nat -> bool, i: nat) {
    forall c: nat :: c < i && Closes(text, top, c) ==> !OpenBefore(text, top, c)
  }

  /** The first closing brace behind an opening one, and the last opening one before it. */
  ghost predicate SpanAt(text: string, top: nat -> bool, o: nat, c: nat) {
    && o < c && Opens(text, top, o) && Closes(text, top, c) && Unended(text, top, c)
    && forall p: nat :: o < p < c ==> !Opens(text, top, p)
  }

  ghost predicate LastOpen(text: string, top: nat -> bool, i: nat, open: Option<nat>) {
    match open
    case None => forall p: nat :: p < i ==> !Opens(text, top, p)
    case Some(o) => o < i && Opens(text, top, o) && forall p: nat :: o < p < i ==> !Opens(text, top, p)
  }

  lemma StepIs(text: string, i: nat)
    requires i < |text|
    ensures Run(START, text[..i + 1]) == Observe(Run(START, text[..i]), text[i])
  {
    assert text[..i + 1] == text[..i] + [text[i]];
    RunAppend(START, text[..i], [text[i]]);
    RunOne(Run(START, text[..i]), text[i]);
  }

  /** The function agrees with the scan. */
  ghost predicate Follows(text: string, top: nat -> bool) {
    forall i: nat :: i <= |text| ==> (top(i) <==> Run(START, text[..i]).Cuttable())
  }

  lemma {:induction false} SpanFrom(text: string, top: nat -> bool, i: nat, open: Option<nat>, s: Scan)
    requires i <= |text| && LastOpen(text, top, i, open) && Unended(text, top, i)
    requires Follows(text, top) && s == Run(START, text[..i])
    ensures match BraceSpan(s, text, i, open)
      case Some((o, c)) => SpanAt(text, top, o, c)
      case None => Unended(text, top, |text|)
    decreases |text| - i
  {
    if i < |text| {
      var s' := Observe(s, text[i]);
      StepIs(text, i);
      assert top(i) <==> s.Cuttable();
      assert top(i + 1) <==> s'.Cuttable();
      var open' := if Opens(text, top, i) then Some(i) else open;
      assert LastOpen(text, top, i + 1, open');
      if Closes(text, top, i) && open'.Some? {
        assert open'.value < i;
      } else {
        assert Closes(text, top, i) ==> !OpenBefore(text, top, i);
        SpanFrom(text, top, i + 1, open', s');
      }
    }
  }

  lemma SpanIsUnique(text: string, top: nat -> bool, o: nat, c: nat, o': nat, c': nat)
    requires SpanAt(text, top, o, c) && SpanAt(text, top, o', c')
    ensures o == o' && c == c'
  {
    assert OpenBefore(text, top, c) && OpenBefore(text, top, c');
  }

  /** The braces found are the first closing one that ends a span and the last opening one before it; none are
      found exactly when no closing brace ends a span. */
  lemma BraceSpanExactly(text: string, top: nat -> bool, o: nat, c: nat)
    requires top == Tops(text)
    ensures BraceSpan(START, text, 0, None) == Some((o, c)) <==> SpanAt(text, top, o, c)
    ensures BraceSpan(START, text, 0, None).None? <==> Unended(text, top, |text|)
  {
    forall i: nat | i <= |text| ensures top(i) <==> Run(START, text[..i]).Cuttable() {
      CuttableExactly(text[..i]);
    }
    assert text[..0] == "";
    SpanFrom(text, top, 0, None, START);
    SpanDecides(text, top, o, c, BraceSpan(START, text, 0, None));
  }

  lemma SpanDecides(text: string, top: nat -> bool, o: nat, c: nat, found: Option<(nat, nat)>)
    requires match found case Some((o', c')) => SpanAt(text, top, o', c') case None => Unended(text, top, |text|)
    ensures found == Some((o, c)) <==> SpanAt(text, top, o, c)
    ensures found.None? <==> Unended(text, top, |text|)
  {
    match found
    case Some((o', c')) =>
      assert OpenBefore(text, top, c');
      if SpanAt(text, top, o, c) {
        SpanIsUnique(text, top, o, c, o', c');
      }
    case None =>
      if SpanAt(text, top, o, c) {
        assert OpenBefore(text, top, c);
      }
  }
}
