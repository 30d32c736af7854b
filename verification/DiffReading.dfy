/** Any diff, line by line: a line counts by its first character and by what precedes it, a fingerprint goes with
    every effective added line under the path last named, and nothing else is found. No parser state is involved. */
module DiffReading {
  import opened Text
  import opened Splitting
  import opened AcceptedLines

  // ----- lines -----

  predicate StartsFile(line: string) {
    "diff --git " <= line
  }

  predicate StartsHunk(line: string) {
    "@@ " <= line
  }

  /** A hunk has started above the line, and no file since. */
  ghost predicate InHunk(lines: seq<string>, i: nat)
    requires i <= |lines|
  {
    exists j :: 0 <= j < i && StartsHunk(lines[j]) && forall k :: j < k < i ==> !StartsFile(lines[k])
  }

  /** Above any hunk of its file the line names the new path. */
  ghost predicate NamesPath(lines: seq<string>, i: nat)
    requires i < |lines|
  {
    "+++ " <= lines[i] && !InHunk(lines, i)
  }

  ghost predicate IsAdded(lines: seq<string>, i: nat)
    requires i < |lines|
  {
    "+" <= lines[i] && !NamesPath(lines, i)
  }

  ghost predicate IsDeleted(lines: seq<string>, i: nat)
    requires i < |lines|
  {
    "-" <= lines[i] && ("--- " <= lines[i] ==> InHunk(lines, i))
  }

  /** Line `j` names the path that holds for line `i`: no file starts and no path is named in between. */
  ghost predicate NamedAt(lines: seq<string>, i: nat, j: nat)
    requires i <= |lines|
  {
    j < i && NamesPath(lines, j) && forall k :: j < k < i ==> !StartsFile(lines[k]) && !NamesPath(lines, k)
  }

  lemma NamedOnce(lines: seq<string>, i: nat, j: nat, k: nat)
    requires i <= |lines| && NamedAt(lines, i, j) && NamedAt(lines, i, k)
    ensures j == k
  {
  }

  /** The path that holds for a line. */
  ghost function PathAt(lines: seq<string>, i: nat): Option<string>
    requires i <= |lines|
  {
    if exists j: nat :: NamedAt(lines, i, j) then
      var j: nat :| NamedAt(lines, i, j);
      NormalizeDiffPath(lines[j][4..])
    else None
  }

  ghost function AddedAbove(lines: seq<string>, i: nat): nat
    requires i <= |lines|
  {
    if i == 0 then 0 else AddedAbove(lines, i - 1) + (if IsAdded(lines, i - 1) then 1 else 0)
  }

  ghost function DeletedAbove(lines: seq<string>, i: nat): nat
    requires i <= |lines|
  {
    if i == 0 then 0 else DeletedAbove(lines, i - 1) + (if IsDeleted(lines, i - 1) then 1 else 0)
  }

  /** The fingerprints of the added lines above a line, in order, each under the path that holds for it. */
  ghost function FoundAbove(lines: seq<string>, i: nat, o: Oracle): seq<Fingerprint>
    requires i <= |lines|
  {
    if i == 0 then []
    else FoundAbove(lines, i - 1, o) + (if IsAdded(lines, i - 1) then FingerprintsOf(PathAt(lines, i - 1), lines[i - 1][1..], o) else [])
  }

  // ----- one line -----

  /** What the parser knows above a line. */
  ghost predicate Knows(st: Parser, lines: seq<string>, i: nat, o: Oracle)
    requires i <= |lines|
  {
    && (st.inHunk <==> InHunk(lines, i)) && PathAt(lines, i) == st.path
    && st.summary.added == AddedAbove(lines, i) && st.summary.deleted == DeletedAbove(lines, i)
    && FoundAbove(lines, i, o) == st.summary.fingerprints
  }

  lemma HunkNext(lines: seq<string>, i: nat)
    requires i < |lines|
    ensures InHunk(lines, i + 1) <==> StartsHunk(lines[i]) || (InHunk(lines, i) && !StartsFile(lines[i]))
  {
    if StartsHunk(lines[i]) {
      assert InHunk(lines, i + 1);
    }
  }

  lemma PathFrom(lines: seq<string>, i: nat, j: nat)
    requires i <= |lines| && NamedAt(lines, i, j)
    ensures PathAt(lines, i) == NormalizeDiffPath(lines[j][4..])
  {
    var k: nat :| NamedAt(lines, i, k) && PathAt(lines, i) == NormalizeDiffPath(lines[k][4..]);
    NamedOnce(lines, i, j, k);
  }

  lemma NamedNext(lines: seq<string>, i: nat, j: nat, next: nat)
    requires i < |lines| && !NamesPath(lines, i) && next == i + 1
    ensures NamedAt(lines, next, j) <==> NamedAt(lines, i, j) && !StartsFile(lines[i])
  {
  }

  lemma PathNext(lines: seq<string>, i: nat, next: nat)
    requires i < |lines| && next == i + 1
    ensures PathAt(lines, next) ==
      if NamesPath(lines, i) then NormalizeDiffPath(lines[i][4..]) else if StartsFile(lines[i]) then None else PathAt(lines, i)
  {
    if NamesPath(lines, i) {
      PathFrom(lines, next, i);
    } else {
      forall j: nat ensures NamedAt(lines, next, j) <==> NamedAt(lines, i, j) && !StartsFile(lines[i]) {
        NamedNext(lines, i, j, next);
      }
      if j: nat :| NamedAt(lines, next, j) {
        PathFrom(lines, next, j);
        PathFrom(lines, i, j);
      }
    }
  }

  lemma OneKindOnly(line: string)
    ensures StartsFile(line) ==> !("@@ " <= line) && !("+" <= line) && !("-" <= line)
    ensures StartsHunk(line) ==> !("+" <= line) && !("-" <= line)
    ensures "+++ " <= line ==> "+" <= line
    ensures "--- " <= line ==> "-" <= line
    ensures "+" <= line ==> !("-" <= line)
  {
    assert "diff --git "[0] == 'd' && "@@ "[0] == '@' && "+"[0] == '+' && "-"[0] == '-';
    assert "+++ "[..1] == "+" && "--- "[..1] == "-";
  }

  lemma PlaceNext(st: Parser, lines: seq<string>, i: nat, o: Oracle, st': Parser)
    requires i < |lines| && (st.inHunk <==> InHunk(lines, i)) && PathAt(lines, i) == st.path && st' == Step(st, lines[i], o)
    ensures (st'.inHunk <==> InHunk(lines, i + 1)) && PathAt(lines, i + 1) == st'.path
  {
    OneKindOnly(lines[i]);
    HunkNext(lines, i);
    PathNext(lines, i, i + 1);
  }

  lemma CountsNext(st: Parser, lines: seq<string>, i: nat, o: Oracle, st': Parser)
    requires i < |lines| && (st.inHunk <==> InHunk(lines, i)) && st' == Step(st, lines[i], o)
    requires st.summary.added == AddedAbove(lines, i) && st.summary.deleted == DeletedAbove(lines, i)
    ensures st'.summary.added == AddedAbove(lines, i + 1) && st'.summary.deleted == DeletedAbove(lines, i + 1)
  {
    OneKindOnly(lines[i]);
  }

  lemma FoundNext(st: Parser, lines: seq<string>, i: nat, o: Oracle, st': Parser)
    requires i < |lines| && Knows(st, lines, i, o) && st' == Step(st, lines[i], o)
    ensures FoundAbove(lines, i + 1, o) == st'.summary.fingerprints
  {
    OneKindOnly(lines[i]);
  }

  lemma KnowsNext(st: Parser, lines: seq<string>, i: nat, o: Oracle, st': Parser)
    requires i < |lines| && Knows(st, lines, i, o) && st' == Step(st, lines[i], o)
    ensures Knows(st', lines, i + 1, o)
  {
    PlaceNext(st, lines, i, o, st');
    CountsNext(st, lines, i, o, st');
    FoundNext(st, lines, i, o, st');
  }

  lemma ParseNext(lines: seq<string>, i: nat, o: Oracle)
    requires i < |lines|
    ensures Parse(FRESH, lines[..i + 1], o) == Step(Parse(FRESH, lines[..i], o), lines[i], o)
  {
    assert lines[..i + 1] == lines[..i] + [lines[i]];
    ParseAppend(FRESH, lines[..i], [lines[i]], o);
    assert [lines[i]][1..] == [];
  }

  lemma {:induction false} ParserKnows(lines: seq<string>, i: nat, o: Oracle)
    requires i <= |lines|
    ensures Knows(Parse(FRESH, lines[..i], o), lines, i, o)
  {
    if i > 0 {
      ParserKnows(lines, i - 1, o);
      ParseNext(lines, i - 1, o);
      KnowsNext(Parse(FRESH, lines[..i - 1], o), lines, i - 1, o, Parse(FRESH, lines[..i], o));
    }
  }

  /** On every text: the lines counted are the added and the deleted ones, and the fingerprints are those of the
      added lines. */
  lemma AnyDiffReads(lines: seq<string>, o: Oracle)
    ensures Parse(FRESH, lines, o).summary ==
      Summary(AddedAbove(lines, |lines|), DeletedAbove(lines, |lines|), FoundAbove(lines, |lines|, o))
  {
    ParserKnows(lines, |lines|, o);
    assert lines[..|lines|] == lines;
  }

  // ----- paths -----

  /** Blanks around a path do not matter, the null device is none, and one leading `a/` or `b/` goes. */
  lemma PathsAreStripped(before: string, p: string, after: string)
    requires AllWhitespace(before) && AllWhitespace(after) && Trimmed(p)
    ensures NormalizeDiffPath(before + p + after) ==
      if p == "/dev/null" then None
      else if |p| >= 2 && (p[0] == 'a' || p[0] == 'b') && p[1] == '/' then Some(p[2..])
      else Some(p)
  {
    if p == "" {
      var blank := before + p + after;
      TrimStartBlank(blank, "");
      assert blank + "" == blank;
    } else {
      TrimAround(before, p, after);
    }
    assert "a/"[0] == 'a' && "a/"[1] == '/' && "b/"[0] == 'b' && "b/"[1] == '/';
    if |p| >= 2 {
      assert p[..2] == [p[0], p[1]];
    }
  }

  // ----- effective lines -----

  /** Words with blanks around them; between two words there is at least one. */
  function Spaced(words: seq<string>, gaps: seq<string>): string
    requires |gaps| == |words| + 1
  {
    if words == [] then gaps[0] else gaps[0] + (words[0] + Spaced(words[1..], gaps[1..]))
  }

  ghost predicate Apart(words: seq<string>, gaps: seq<string>) {
    && |gaps| == |words| + 1
    && (forall i :: 0 <= i < |words| ==> IsWord(words[i]))
    && (forall i :: 0 <= i < |gaps| ==> AllWhitespace(gaps[i]))
    && (forall i :: 0 < i < |words| ==> gaps[i] != "")
  }

  lemma {:induction false} WordsAfterBlanks(blanks: string, rest: string)
    requires AllWhitespace(blanks)
    ensures Words(blanks + rest) == Words(rest)
    decreases |blanks|
  {
    if blanks == "" {
      assert blanks + rest == rest;
    } else {
      assert (blanks + rest)[1..] == blanks[1..] + rest;
      WordsAfterBlanks(blanks[1..], rest);
    }
  }

  lemma SpacedStart(words: seq<string>, gaps: seq<string>)
    requires Apart(words, gaps) && (words == [] || gaps[0] != "")
    ensures Spaced(words, gaps) != "" ==> IsWhitespace(Spaced(words, gaps)[0])
  {
  }

  lemma {:induction false} WordsOfSpaced(words: seq<string>, gaps: seq<string>)
    requires Apart(words, gaps)
    ensures Words(Spaced(words, gaps)) == words
  {
    if words == [] {
      WordsAfterBlanks(gaps[0], "");
      assert gaps[0] + "" == gaps[0];
    } else {
      var w, rest := words[0], Spaced(words[1..], gaps[1..]);
      assert Apart(words[1..], gaps[1..]);
      WordsOfSpaced(words[1..], gaps[1..]);
      SpacedStart(words[1..], gaps[1..]);
      WordsAfterBlanks(gaps[0], w + rest);
      assert IsWord(w);
      WordLengthOf(w, rest);
      assert (w + rest)[..|w|] == w && (w + rest)[|w|..] == rest;
    }
  }

  /** The characters at or above a code point. */
  function AtLeast(s: string, bound: nat): nat {
    if s == "" then 0 else (if s[0] as int >= bound then 1 else 0) + AtLeast(s[1..], bound)
  }

  /** UTF-8 takes one byte, and one more for each of three bounds that the character reaches. */
  lemma {:induction false} BytesCounted(s: string)
    ensures Utf8Length(s) == |s| + AtLeast(s, 0x80) + AtLeast(s, 0x800) + AtLeast(s, 0x1_0000)
  {
    if s != "" {
      BytesCounted(s[1..]);
    }
  }

  function Bytes(s: string): nat {
    |s| + AtLeast(s, 0x80) + AtLeast(s, 0x800) + AtLeast(s, 0x1_0000)
  }

  /** However an added line is spaced, it has a fingerprint exactly when its words, one blank apart, take four bytes
      or more and hold a letter, a digit or an underscore; the fingerprint is that of the path and of those words. */
  lemma LineFingerprint(path: Option<string>, words: seq<string>, gaps: seq<string>, o: Oracle, text: string)
    requires Apart(words, gaps) && text == Join(words, " ")
    ensures FingerprintsOf(path, Spaced(words, gaps), o) ==
      if path.Some? && Bytes(text) >= 4 && (exists c :: c in text && (o.isAlphanumeric(c) || c == '_'))
      then [Fingerprint(o.hash("path", path.value), o.hash("line", text))]
      else []
  {
    WordsOfSpaced(words, gaps);
    BytesCounted(text);
  }
}
