/** Splitting undoes joining: exactly when the parts of a split text, or any selection of them,
    come back unchanged after being joined and split again. */
module Splitting {
  import opened Text
  import opened Scanner

  /** Characters the scanner gives no meaning to outside strings and comments. */
  predicate Plain(ch: char) {
    ch !in {'"', '\'', '{', '}', '[', ']', '(', ')', '<', '>', '/', '*', '\\', '\n'}
  }

  /** Top level, outside strings and comments, and not right after a slash: as good as new. */
  predicate Base(s: Scan) {
    s == START.(previous := s.previous) && s.previous != Some('/')
  }

  /** No delimiter cuts while this text is read from state `s`. */
  predicate NoCut(s: Scan, text: string, delimiters: set<char>)
    decreases |text|
  {
    text == "" || (!(s.Cuttable() && text[0] in delimiters) && NoCut(Observe(s, text[0]), text[1..], delimiters))
  }

  // ----- the scanner's memory -----

  lemma ObserveValid(s: Scan, ch: char)
    requires s.Valid()
    ensures Observe(s, ch).Valid()
  {
  }

  lemma {:induction false} RunValid(s: Scan, text: string)
    requires s.Valid()
    ensures Run(s, text).Valid()
    decreases |text|
  {
    if text != "" {
      ObserveValid(s, text[0]);
      RunValid(Observe(s, text[0]), text[1..]);
    }
  }

  lemma WhitespaceIsHarmless(ch: char)
    requires IsWhitespace(ch)
    ensures ch !in {'"', '\'', '{', '}', '[', ']', '(', ')', '<', '>', '/', '*', '\\'}
  {
  }

  /** From a base state only the next character counts. */
  lemma BaseForgets(s: Scan, t: Scan, ch: char)
    requires Base(s) && Base(t)
    ensures Observe(s, ch) == Observe(t, ch)
  {
  }

  lemma BaseRunsAlike(s: Scan, t: Scan, text: string, delimiters: set<char>)
    requires Base(s) && Base(t)
    ensures NoCut(s, text, delimiters) == NoCut(t, text, delimiters)
    ensures text != "" ==> Run(s, text) == Run(t, text)
    ensures Pieces(s, text, delimiters) == Pieces(t, text, delimiters)
  {
    if text != "" {
      BaseForgets(s, t, text[0]);
    }
  }

  /** Reading a plain or blank character in a cuttable state leads to a base state. */
  lemma PlainStep(s: Scan, ch: char)
    requires s.Cuttable() && s.Valid() && (Plain(ch) || IsWhitespace(ch))
    ensures Base(Observe(s, ch))
  {
    if IsWhitespace(ch) {
      WhitespaceIsHarmless(ch);
    }
  }

  lemma {:induction false} BlankRun(s: Scan, text: string)
    requires s.Cuttable() && s.Valid() && AllWhitespace(text)
    ensures Run(s, text).Cuttable() && Run(s, text).Valid()
    ensures Base(s) || text != "" ==> Base(Run(s, text))
    decreases |text|
  {
    if text != "" {
      PlainStep(s, text[0]);
      BlankRun(Observe(s, text[0]), text[1..]);
    }
  }

  // ----- cutting -----

  /** A text without a cut is carried along into the first piece. */
  lemma {:induction false} PiecesNoCut(s: Scan, text: string, rest: string, delimiters: set<char>)
    requires NoCut(s, text, delimiters)
    ensures Pieces(s, text + rest, delimiters) == Glue(text, Pieces(Run(s, text), rest, delimiters))
    decreases |text|
  {
    if text == "" {
      assert text + rest == rest;
      GlueEmpty(Pieces(s, rest, delimiters));
    } else {
      assert (text + rest)[1..] == text[1..] + rest;
      PiecesNoCut(Observe(s, text[0]), text[1..], rest, delimiters);
      var q := Pieces(Run(s, text), rest, delimiters);
      GlueTwice([text[0]], text[1..], q);
      assert [text[0]] + text[1..] == text;
    }
  }

  lemma GlueTwice(a: string, b: string, q: seq<string>)
    requires |q| > 0
    ensures Glue(a, Glue(b, q)) == Glue(a + b, q)
  {
    assert a + (b + q[0]) == a + b + q[0];
  }

  lemma {:induction false} NoCutAppend(s: Scan, a: string, b: string, delimiters: set<char>)
    ensures NoCut(s, a + b, delimiters) <==> NoCut(s, a, delimiters) && NoCut(Run(s, a), b, delimiters)
    decreases |a|
  {
    if a == "" {
      assert a + b == b;
    } else {
      assert (a + b)[1..] == a[1..] + b;
      NoCutAppend(Observe(s, a[0]), a[1..], b, delimiters);
    }
  }

  lemma {:induction false} BlankNoCut(s: Scan, text: string, delimiters: set<char>)
    requires AllWhitespace(text) && forall d :: d in delimiters ==> !IsWhitespace(d)
    ensures NoCut(s, text, delimiters)
    decreases |text|
  {
    if text != "" {
      BlankNoCut(Observe(s, text[0]), text[1..], delimiters);
    }
  }

  /** A delimiter in a cuttable state ends the piece. */
  lemma PiecesAtCut(s: Scan, d: char, rest: string, delimiters: set<char>)
    requires s.Cuttable() && d in delimiters
    ensures Pieces(s, [d] + rest, delimiters) == [""] + Pieces(Observe(s, d), rest, delimiters)
  {
    assert ([d] + rest)[1..] == rest;
  }

  // ----- trimming -----

  lemma {:induction false} TrimStartParts(s: string) returns (w: string)
    ensures AllWhitespace(w) && s == w + TrimStart(s)
    ensures TrimStart(s) != "" ==> !IsWhitespace(TrimStart(s)[0])
  {
    if s != "" && IsWhitespace(s[0]) {
      var v := TrimStartParts(s[1..]);
      w := [s[0]] + v;
      assert s == [s[0]] + s[1..];
    } else {
      w := "";
    }
  }

  lemma {:induction false} TrimEndParts(s: string) returns (w: string)
    ensures AllWhitespace(w) && s == TrimEnd(s) + w
    ensures TrimEnd(s) != "" ==> !IsWhitespace(TrimEnd(s)[|TrimEnd(s)| - 1])
  {
    if s != "" && IsWhitespace(s[|s| - 1]) {
      var v := TrimEndParts(s[..|s| - 1]);
      w := v + [s[|s| - 1]];
      assert s == s[..|s| - 1] + [s[|s| - 1]];
    } else {
      w := "";
    }
  }

  lemma TrimParts(s: string) returns (before: string, after: string)
    ensures AllWhitespace(before) && AllWhitespace(after) && s == before + Trim(s) + after
    ensures Trimmed(Trim(s))
  {
    before := TrimStartParts(s);
    after := TrimEndParts(TrimStart(s));
    if Trim(s) != "" {
      assert Trim(s)[0] == TrimStart(s)[0];
    }
  }

  lemma {:induction false} TrimStartBlank(w: string, s: string)
    requires AllWhitespace(w)
    ensures TrimStart(w + s) == TrimStart(s)
  {
    if w == "" {
      assert w + s == s;
    } else {
      assert (w + s)[1..] == w[1..] + s;
      TrimStartBlank(w[1..], s);
    }
  }

  lemma {:induction false} TrimEndBlank(s: string, w: string)
    requires AllWhitespace(w)
    ensures TrimEnd(s + w) == TrimEnd(s)
  {
    if w == "" {
      assert s + w == s;
    } else {
      assert (s + w)[..|s + w| - 1] == s + w[..|w| - 1];
      TrimEndBlank(s, w[..|w| - 1]);
    }
  }

  /** Blanks around a trimmed, non-empty text are what trimming removes. */
  lemma TrimAround(before: string, s: string, after: string)
    requires AllWhitespace(before) && AllWhitespace(after) && Trimmed(s) && s != ""
    ensures Trim(before + s + after) == s
  {
    assert before + s + after == before + (s + after);
    TrimStartBlank(before, s + after);
    assert TrimStart(s + after) == s + after;
    TrimEndBlank(s, after);
  }

  /** A text that starts with a non-blank and holds a non-blank at `k` keeps everything up to `k`. */
  lemma {:induction false} TrimKeeps(s: string, k: nat)
    requires k < |s| && !IsWhitespace(s[0]) && !IsWhitespace(s[k])
    ensures |Trim(s)| > k
    decreases |s|
  {
    assert TrimStart(s) == s;
    if IsWhitespace(s[|s| - 1]) {
      var t := s[..|s| - 1];
      TrimKeeps(t, k);
      assert TrimStart(t) == t;
      assert TrimEnd(s) == TrimEnd(t);
    }
  }

  lemma CleanedBlankFirst(w: string, pieces: seq<string>)
    requires |pieces| > 0 && AllWhitespace(w)
    ensures Cleaned(Glue(w, pieces)) == Cleaned(pieces)
  {
    TrimStartBlank(w, pieces[0]);
    CleanedFirst(w + pieces[0], pieces[1..]);
    CleanedFirst(pieces[0], pieces[1..]);
    assert pieces == [pieces[0]] + pieces[1..];
  }

  // ----- joining and splitting again -----

  /** A trimmed, non-empty text without a top-level delimiter. */
  predicate Part(p: string, delimiters: set<char>) {
    p != "" && Trimmed(p) && NoCut(START, p, delimiters)
  }

  /** Reading the part leads back to top level, outside strings and comments. */
  predicate Settles(p: string) {
    Run(START, p).Cuttable()
  }

  /** The part ends inside a `//` comment, its newline gone. */
  predicate EndsInLineComment(p: string) {
    Run(START, p).line
  }

  /** What goes between joined parts: one delimiter, blanks around it. */
  datatype Separator = Separator(before: string, delimiter: char, after: string) {
    function Text(): string { before + [delimiter] + after }

    predicate Fits(delimiters: set<char>) {
      && AllWhitespace(before) && AllWhitespace(after)
      && delimiter in delimiters
      && (forall d :: d in delimiters ==> Plain(d) && !IsWhitespace(d))
    }
  }

  const FIELD_SEPARATOR := Separator("", ',', " ")

  lemma FieldSeparatorFits(delimiters: set<char>)
    requires ',' in delimiters && delimiters <= {',', ';'}
    ensures FIELD_SEPARATOR.Text() == ", " && FIELD_SEPARATOR.Fits(delimiters)
  {
    assert AllWhitespace("") && AllWhitespace(" ");
    assert Plain(',') && Plain(';') && !IsWhitespace(',') && !IsWhitespace(';');
  }

  lemma SettledHead(s: Scan, p: string, w: string, delimiters: set<char>)
    requires Base(s) && Part(p, delimiters) && Settles(p)
    requires AllWhitespace(w) && forall d :: d in delimiters ==> !IsWhitespace(d)
    ensures NoCut(s, p + w, delimiters) && Run(s, p + w).Cuttable() && Run(s, p + w).Valid()
  {
    BaseRunsAlike(s, START, p, delimiters);
    RunValid(START, p);
    BlankRun(Run(s, p), w);
    BlankNoCut(Run(s, p), w, delimiters);
    NoCutAppend(s, p, w, delimiters);
    RunAppend(s, p, w);
  }

  lemma CutOff(s: Scan, head: string, d: char, tail: string, delimiters: set<char>)
    requires NoCut(s, head, delimiters) && Run(s, head).Cuttable() && Run(s, head).Valid()
    requires d in delimiters && Plain(d)
    ensures Base(Observe(Run(s, head), d))
    ensures Pieces(s, head + ([d] + tail), delimiters) == [head] + Pieces(Observe(Run(s, head), d), tail, delimiters)
  {
    PiecesNoCut(s, head, [d] + tail, delimiters);
    PiecesAtCut(Run(s, head), d, tail, delimiters);
    PlainStep(Run(s, head), d);
    GlueCut(head, Pieces(Observe(Run(s, head), d), tail, delimiters));
  }

  /** A settled part is cut off cleanly, and scanning starts afresh behind it. */
  lemma SettledPartIsCut(s: Scan, p: string, sep: Separator, rest: string, delimiters: set<char>)
    requires Base(s) && Part(p, delimiters) && Settles(p) && sep.Fits(delimiters)
    ensures Cleaned(Pieces(s, p + sep.Text() + rest, delimiters)) == [p] + Cleaned(Pieces(START, rest, delimiters))
  {
    var head, tail := p + sep.before, sep.after + rest;
    assert p + sep.Text() + rest == head + ([sep.delimiter] + tail);
    SettledHead(s, p, sep.before, delimiters);
    CutOff(s, head, sep.delimiter, tail, delimiters);
    var g := Observe(Run(s, head), sep.delimiter);
    CleanedFirst(head, Pieces(g, tail, delimiters));
    assert head == "" + p + sep.before;
    TrimAround("", p, sep.before);
    BlankTail(g, sep.after, rest, delimiters);
  }

  /** Blanks after a delimiter do not matter. */
  lemma BlankTail(g: Scan, w: string, rest: string, delimiters: set<char>)
    requires Base(g) && AllWhitespace(w) && forall d :: d in delimiters ==> !IsWhitespace(d)
    ensures Cleaned(Pieces(g, w + rest, delimiters)) == Cleaned(Pieces(START, rest, delimiters))
  {
    BlankNoCut(g, w, delimiters);
    PiecesNoCut(g, w, rest, delimiters);
    BlankRun(g, w);
    BaseRunsAlike(Run(g, w), START, rest, delimiters);
    CleanedBlankFirst(w, Pieces(START, rest, delimiters));
  }

  lemma {:induction false} CommentSwallows(s: Scan, text: string, delimiters: set<char>)
    requires s.line && '\n' !in text
    ensures NoCut(s, text, delimiters) && Run(s, text).line
    decreases |text|
  {
    if text != "" {
      CommentSwallows(Observe(s, text[0]), text[1..], delimiters);
    }
  }

  /** A part ending in a line comment swallows the separator: the first part that comes back is longer. */
  lemma UnsettledPartSwallows(s: Scan, p: string, sep: Separator, rest: string, delimiters: set<char>)
    requires Base(s) && Part(p, delimiters) && EndsInLineComment(p) && sep.Fits(delimiters) && '\n' !in sep.before
    ensures var back := Cleaned(Pieces(s, p + sep.Text() + rest, delimiters));
      |back| > 0 && |back[0]| > |p|
  {
    BaseRunsAlike(s, START, p, delimiters);
    var gap := sep.before + [sep.delimiter];
    CommentSwallows(Run(s, p), gap, delimiters);
    NoCutAppend(s, p, gap, delimiters);
    var head, tail := p + gap, sep.after + rest;
    assert p + sep.Text() + rest == head + tail;
    PiecesNoCut(s, head, tail, delimiters);
    var q := Pieces(Run(s, head), tail, delimiters);
    var first := head + q[0];
    assert first[|p| + |sep.before|] == sep.delimiter;
    assert first[0] == p[0];
    TrimKeeps(first, |p| + |sep.before|);
    CleanedFirst(first, q[1..]);
  }

  /** The last part needs no separator behind it. */
  lemma LastPart(s: Scan, p: string, delimiters: set<char>)
    requires Base(s) && Part(p, delimiters)
    ensures Cleaned(Pieces(s, p, delimiters)) == [p]
  {
    BaseRunsAlike(s, START, p, delimiters);
    PiecesNoCut(s, p, "", delimiters);
    assert p + "" == p;
    GlueCut(p, []);
    assert [""] + [] == [""];
    CleanedFirst(p, []);
    assert p == "" + p + "";
    TrimAround("", p, "");
  }

  ghost predicate Joinable(parts: seq<string>, delimiters: set<char>) {
    && (forall i :: 0 <= i < |parts| ==> Part(parts[i], delimiters))
    && (forall i :: 0 <= i < |parts| - 1 ==> Settles(parts[i]) || EndsInLineComment(parts[i]))
  }

  /** Split undoes join exactly when no part but the last ends in a line comment. */
  lemma {:induction false} SplitUndoesJoin(parts: seq<string>, sep: Separator, delimiters: set<char>)
    requires Joinable(parts, delimiters) && sep.Fits(delimiters) && '\n' !in sep.before
    ensures Split(Join(parts, sep.Text()), delimiters) == parts <==>
      forall i :: 0 <= i < |parts| - 1 ==> !EndsInLineComment(parts[i])
  {
    if |parts| == 0 {
      assert Pieces(START, "", delimiters) == [""];
      CleanedFirst("", []);
      assert [""] + [] == [""];
    } else if |parts| == 1 {
      LastPart(START, parts[0], delimiters);
      assert [parts[0]] == parts;
    } else {
      var p, rest := parts[0], parts[1..];
      var tail := Join(rest, sep.Text());
      assert Join(parts, sep.Text()) == p + sep.Text() + tail;
      forall i | 0 <= i < |rest| ensures rest[i] == parts[i + 1] { }
      SplitUndoesJoin(rest, sep, delimiters);
      if EndsInLineComment(p) {
        UnsettledPartSwallows(START, p, sep, tail, delimiters);
      } else {
        SettledPartIsCut(START, p, sep, tail, delimiters);
        assert parts == [p] + rest;
        assert (forall i :: 0 <= i < |parts| - 1 ==> !EndsInLineComment(parts[i])) <==>
               (forall i :: 0 <= i < |rest| - 1 ==> !EndsInLineComment(rest[i])) by {
          if forall i :: 0 <= i < |rest| - 1 ==> !EndsInLineComment(rest[i]) {
            forall i | 0 <= i < |parts| - 1 ensures !EndsInLineComment(parts[i]) {
              if i > 0 { assert parts[i] == rest[i - 1]; }
            }
          }
        }
      }
    }
  }

  // ----- what splitting produces can be joined -----

  /** The first piece has no cut in it; behind a cut, scanning goes on from a base state. */
  lemma {:induction false} FirstPiece(s: Scan, text: string, delimiters: set<char>) returns (g: Scan, rest: string)
    requires s.Valid() && forall d :: d in delimiters ==> Plain(d)
    ensures var pieces := Pieces(s, text, delimiters);
      && NoCut(s, pieces[0], delimiters)
      && (|pieces| > 1 ==> Run(s, pieces[0]).Cuttable() && Base(g) && |rest| < |text|
                           && pieces[1..] == Pieces(g, rest, delimiters))
    decreases |text|
  {
    g, rest := START, "";
    if text != "" {
      var s' := Observe(s, text[0]);
      if s.Cuttable() && text[0] in delimiters {
        PlainStep(s, text[0]);
        g, rest := s', text[1..];
      } else {
        ObserveValid(s, text[0]);
        g, rest := FirstPiece(s', text[1..], delimiters);
        var pieces, pieces' := Pieces(s, text, delimiters), Pieces(s', text[1..], delimiters);
        assert pieces[0] == [text[0]] + pieces'[0];
        assert pieces[0][1..] == pieces'[0];
      }
    }
  }

  /** Raw pieces: no cut inside, and all but the last lead back to top level. */
  ghost predicate Raw(pieces: seq<string>, delimiters: set<char>) {
    && (forall i :: 0 <= i < |pieces| ==> NoCut(START, pieces[i], delimiters))
    && (forall i :: 0 <= i < |pieces| - 1 ==> Run(START, pieces[i]).Cuttable())
  }

  lemma {:induction false} PiecesAreRaw(s: Scan, text: string, delimiters: set<char>)
    requires Base(s) && forall d :: d in delimiters ==> Plain(d)
    ensures Raw(Pieces(s, text, delimiters), delimiters)
    decreases |text|
  {
    var pieces := Pieces(s, text, delimiters);
    var g, rest := FirstPiece(s, text, delimiters);
    BaseRunsAlike(s, START, pieces[0], delimiters);
    if |pieces| > 1 {
      PiecesAreRaw(g, rest, delimiters);
      forall i | 0 < i < |pieces|
        ensures NoCut(START, pieces[i], delimiters) && (i < |pieces| - 1 ==> Run(START, pieces[i]).Cuttable())
      {
        assert pieces[i] == pieces[1..][i - 1];
      }
    }
  }

  /** A string or block comment goes on through blanks. */
  lemma {:induction false} StillInside(e: Scan, w: string)
    requires e.Valid() && AllWhitespace(w) && !e.line && (e.block || e.quote.Some?)
    ensures Run(e, w).Ignored()
    decreases |w|
  {
    if w != "" {
      WhitespaceIsHarmless(w[0]);
      ObserveValid(e, w[0]);
      StillInside(Observe(e, w[0]), w[1..]);
    }
  }

  predicate SameDepth(s: Scan, t: Scan) {
    s.brace == t.brace && s.bracket == t.bracket && s.paren == t.paren && s.angle == t.angle
  }

  /** Outside strings and comments blanks keep the depth. */
  lemma {:induction false} DepthKept(e: Scan, w: string)
    requires e.Valid() && AllWhitespace(w) && !e.Ignored()
    ensures SameDepth(Run(e, w), e) && !Run(e, w).Ignored()
    decreases |w|
  {
    if w != "" {
      WhitespaceIsHarmless(w[0]);
      ObserveValid(e, w[0]);
      DepthKept(Observe(e, w[0]), w[1..]);
    }
  }

  /** Trimming a piece that ends outside strings and comments keeps the depth, unless the newline of a line
      comment is trimmed away. */
  lemma TrimmedRun(piece: string)
    requires Trim(piece) != "" && !Run(START, piece).Ignored()
    ensures var p := Trim(piece);
      EndsInLineComment(p) || (!Run(START, p).Ignored() && SameDepth(Run(START, p), Run(START, piece)))
  {
    var p := Trim(piece);
    var before, after := TrimParts(piece);
    assert piece == before + (p + after);
    RunAppend(START, before, p + after);
    BlankRun(START, before);
    RunAppend(Run(START, before), p, after);
    BaseRunsAlike(Run(START, before), START, p, {});
    var e := Run(START, p);
    RunValid(START, p);
    if !e.line {
      if e.Ignored() {
        StillInside(e, after);
      } else {
        DepthKept(e, after);
      }
    }
  }

  /** Trimming a raw piece gives a part; only a trimmed newline can keep it from settling. */
  lemma TrimmedPiece(piece: string, delimiters: set<char>)
    requires NoCut(START, piece, delimiters) && Trim(piece) != ""
    ensures Part(Trim(piece), delimiters)
    ensures Run(START, piece).Cuttable() ==> Settles(Trim(piece)) || EndsInLineComment(Trim(piece))
  {
    var p := Trim(piece);
    var before, after := TrimParts(piece);
    assert piece == before + (p + after);
    NoCutAppend(START, before, p + after, delimiters);
    BlankRun(START, before);
    var s := Run(START, before);
    NoCutAppend(s, p, after, delimiters);
    BaseRunsAlike(s, START, p, delimiters);
    if Run(START, piece).Cuttable() {
      TrimmedRun(piece);
    }
  }

  lemma {:induction false} CleanedIsJoinable(pieces: seq<string>, delimiters: set<char>)
    requires Raw(pieces, delimiters)
    ensures Joinable(Cleaned(pieces), delimiters)
  {
    if pieces != [] {
      var rest := pieces[1..];
      assert Raw(rest, delimiters) by {
        assert forall i :: 0 <= i < |rest| ==> rest[i] == pieces[i + 1];
      }
      CleanedIsJoinable(rest, delimiters);
      if Trim(pieces[0]) != "" {
        TrimmedPiece(pieces[0], delimiters);
        if rest == [] {
          assert Cleaned(rest) == [];
        }
      }
    }
  }

  /** Every split text can be joined again. */
  lemma SplitIsJoinable(text: string, delimiters: set<char>)
    requires forall d :: d in delimiters ==> Plain(d)
    ensures Joinable(Split(text, delimiters), delimiters)
  {
    PiecesAreRaw(START, text, delimiters);
    CleanedIsJoinable(Pieces(START, text, delimiters), delimiters);
  }

  /** The parts a filter keeps, in order. */
  function Select(parts: seq<string>, keep: string -> bool): seq<string> {
    if parts == [] then []
    else (if keep(parts[0]) then [parts[0]] else []) + Select(parts[1..], keep)
  }

  lemma SelectStep(parts: seq<string>, i: nat, keep: string -> bool)
    requires i < |parts|
    ensures Select(parts[i..], keep) == (if keep(parts[i]) then [parts[i]] else []) + Select(parts[i + 1..], keep)
  {
    assert parts[i..][1..] == parts[i + 1..];
  }

  /** A filtering loop. */
  method SelectWhere(parts: seq<string>, keep: string -> bool) returns (kept: seq<string>)
    ensures kept == Select(parts, keep)
  {
    kept := [];
    for i := 0 to |parts|
      invariant Select(parts, keep) == kept + Select(parts[i..], keep)
    {
      SelectStep(parts, i, keep);
      ghost var rest := Select(parts[i + 1..], keep);
      if keep(parts[i]) {
        assert kept + ([parts[i]] + rest) == kept + [parts[i]] + rest;
        kept := kept + [parts[i]];
      } else {
        assert [] + rest == rest;
      }
    }
  }

  lemma {:induction false} SelectMembers(parts: seq<string>, keep: string -> bool)
    ensures forall p :: p in Select(parts, keep) <==> p in parts && keep(p)
  {
    if parts != [] {
      SelectMembers(parts[1..], keep);
      assert parts == [parts[0]] + parts[1..];
    }
  }

  lemma {:induction false} SelectIsJoinable(parts: seq<string>, keep: string -> bool, delimiters: set<char>)
    requires Joinable(parts, delimiters)
    ensures Joinable(Select(parts, keep), delimiters)
  {
    if parts != [] {
      var rest := parts[1..];
      assert Joinable(rest, delimiters) by {
        assert forall i :: 0 <= i < |rest| ==> rest[i] == parts[i + 1];
      }
      SelectIsJoinable(rest, keep, delimiters);
      if rest == [] {
        assert Select(rest, keep) == [];
      }
    }
  }

  lemma {:induction false} SelectAll(parts: seq<string>, keep: string -> bool)
    requires forall p :: p in parts ==> keep(p)
    ensures Select(parts, keep) == parts
  {
    if parts != [] {
      assert forall p :: p in parts[1..] ==> p in parts;
      SelectAll(parts[1..], keep);
    }
  }

  ghost predicate OnlyLastEndsInLineComment(parts: seq<string>) {
    forall i :: 0 <= i < |parts| - 1 ==> !EndsInLineComment(parts[i])
  }

  /** For every text: the selected parts of its split come back from their join exactly when none
      but the last ends in a line comment, and selecting again then changes nothing. */
  lemma SelectionResplits(text: string, keep: string -> bool, sep: Separator, delimiters: set<char>)
    requires sep.Fits(delimiters) && '\n' !in sep.before
    ensures var kept := Select(Split(text, delimiters), keep);
      var back := Split(Join(kept, sep.Text()), delimiters);
      && (back == kept <==> OnlyLastEndsInLineComment(kept))
      && (OnlyLastEndsInLineComment(kept) ==> Select(back, keep) == kept)
  {
    var parts := Split(text, delimiters);
    SplitIsJoinable(text, delimiters);
    SelectIsJoinable(parts, keep, delimiters);
    var kept := Select(parts, keep);
    SplitUndoesJoin(kept, sep, delimiters);
    SelectMembers(parts, keep);
    SelectAll(kept, keep);
  }

  // ----- a part that is lost -----

  lemma CommentedRun()
    ensures EndsInLineComment("a//") && Part("a//", {'|'})
  {
    var a, b := Observe(START, 'a'), Observe(Observe(START, 'a'), '/');
    assert "a//"[1..] == "//" && "//"[1..] == "/" && "/"[1..] == "";
    assert Run(START, "a//") == Observe(b, '/');
    assert NoCut(b, "/", {'|'}) && NoCut(a, "//", {'|'});
  }

  lemma PlainRun()
    ensures Part("b", {'|'})
  {
    assert "b"[1..] == "";
  }

  /** Both are parts a split can produce, the first from a text whose newline was trimmed away; joined,
      the comment swallows the second. */
  lemma LineCommentSwallows(parts: seq<string>)
    requires parts == ["a//", "b"]
    ensures Joinable(parts, {'|'}) && Split(Join(parts, " | "), {'|'}) != parts
  {
    CommentedRun();
    PlainRun();
    var sep := Separator(" ", '|', " ");
    assert sep.Text() == " | ";
    assert AllWhitespace(" ") && Plain('|') && !IsWhitespace('|');
    assert EndsInLineComment(parts[0]);
    SplitUndoesJoin(parts, sep, {'|'});
  }
}
