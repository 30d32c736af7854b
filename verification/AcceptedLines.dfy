/** Counting and fingerprinting the lines of a unified diff
    (codex-rs/analytics/src/accepted_lines.rs:30-83, 143-169). */
module AcceptedLines {
  import opened Text

  /** What stays abstract: the SHA-1 fingerprint and Unicode's alphanumeric class. */
  datatype Oracle = Oracle(hash: (string, string) -> string, isAlphanumeric: char -> bool)

  datatype Fingerprint = Fingerprint(pathHash: string, lineHash: string)

  datatype Summary = Summary(added: nat, deleted: nat, fingerprints: seq<Fingerprint>)

  /** The parser's variables. */
  datatype Parser = Parser(path: Option<string>, inHunk: bool, summary: Summary)

  const FRESH := Parser(None, false, Summary(0, 0, []))

  /** `normalize_diff_path` */
  function NormalizeDiffPath(path: string): Option<string> {
    var p := Trim(path);
    if p == "/dev/null" then None
    else if "b/" <= p || "a/" <= p then Some(p[2..])
    else Some(p)
  }

  /** `str::split_whitespace`: the maximal runs of non-blank characters. */
  function Words(s: string): seq<string>
    decreases |s|
  {
    if s == "" then []
    else if IsWhitespace(s[0]) then Words(s[1..])
    else
      var n := WordLength(s);
      [s[..n]] + Words(s[n..])
  }

  function WordLength(s: string): (n: nat)
    ensures n <= |s|
    ensures s != "" && !IsWhitespace(s[0]) ==> n > 0
    ensures forall i :: 0 <= i < n ==> !IsWhitespace(s[i])
    ensures n < |s| ==> IsWhitespace(s[n])
  {
    if s == "" || IsWhitespace(s[0]) then 0 else 1 + WordLength(s[1..])
  }

  function Utf8Length(s: string): nat {
    if s == "" then 0
    else
      var n := s[0] as int;
      (if n < 0x80 then 1 else if n < 0x800 then 2 else if n < 0x1_0000 then 3 else 4) + Utf8Length(s[1..])
  }

  function Normalized(line: string): string {
    Join(Words(line), " ")
  }

  /** `normalize_effective_line`: lengths are in bytes. */
  function EffectiveLine(line: string, o: Oracle): Option<string> {
    var normalized := Normalized(line);
    if Utf8Length(normalized) <= 3 then None
    else if forall c :: c in normalized ==> !o.isAlphanumeric(c) && c != '_' then None
    else Some(normalized)
  }

  function FingerprintsOf(path: Option<string>, line: string, o: Oracle): seq<Fingerprint> {
    match (path, EffectiveLine(line, o))
    case (Some(p), Some(n)) => [Fingerprint(o.hash("path", p), o.hash("line", n))]
    case _ => []
  }

  /** One line of the diff. */
  function Step(st: Parser, line: string, o: Oracle): Parser {
    if "diff --git " <= line then st.(path := None, inHunk := false)
    else if "@@ " <= line then st.(inHunk := true)
    else if !st.inHunk && "+++ " <= line then st.(path := NormalizeDiffPath(line[4..]))
    else if !st.inHunk && "--- " <= line then st
    else if "+" <= line then
      st.(summary := st.summary.(
        added := st.summary.added + 1,
        fingerprints := st.summary.fingerprints + FingerprintsOf(st.path, line[1..], o)))
    else if "-" <= line then st.(summary := st.summary.(deleted := st.summary.deleted + 1))
    else st
  }

  function Parse(st: Parser, lines: seq<string>, o: Oracle): Parser
    decreases |lines|
  {
    if lines == [] then st else Parse(Step(st, lines[0], o), lines[1..], o)
  }

  /** `accepted_line_fingerprints_from_unified_diff` */
  method AcceptedLineFingerprints(diff: string, o: Oracle) returns (summary: Summary)
    ensures summary == Parse(FRESH, Lines(diff), o).summary
  {
    var currentPath: Option<string> := None;
    var inHunk := false;
    var added, deleted := 0, 0;
    var fingerprints: seq<Fingerprint> := [];
    var lines := Lines(diff);
    for i := 0 to |lines|
      invariant Parse(FRESH, lines, o) ==
        Parse(Parser(currentPath, inHunk, Summary(added, deleted, fingerprints)), lines[i..], o)
    {
      var line := lines[i];
      assert lines[i..][1..] == lines[i + 1..];
      if "diff --git " <= line {
        currentPath := None;
        inHunk := false;
        continue;
      }
      if "@@ " <= line {
        inHunk := true;
        continue;
      }
      if !inHunk && "+++ " <= line {
        currentPath := NormalizeDiffPath(line[4..]);
        continue;
      }
      if !inHunk && "--- " <= line {
        continue;
      }
      if "+" <= line {
        added := added + 1;
        fingerprints := fingerprints + FingerprintsOf(currentPath, line[1..], o);
        continue;
      }
      if "-" <= line {
        deleted := deleted + 1;
      }
    }
    summary := Summary(added, deleted, fingerprints);
  }

  lemma {:induction false} ParseAppend(st: Parser, a: seq<string>, b: seq<string>, o: Oracle)
    ensures Parse(st, a + b, o) == Parse(Parse(st, a, o), b, o)
    decreases |a|
  {
    if a == [] {
      assert a + b == b;
    } else {
      assert (a + b)[1..] == a[1..] + b;
      ParseAppend(Step(st, a[0], o), a[1..], b, o);
    }
  }

  // ----- blanks at the end of a line do not count -----

  lemma {:induction false} WordsOfBlankEnd(s: string, w: char)
    requires IsWhitespace(w)
    ensures Words(s + [w]) == Words(s)
    decreases |s|
  {
    if s == "" {
      assert (s + [w])[1..] == "";
    } else if IsWhitespace(s[0]) {
      assert (s + [w])[1..] == s[1..] + [w];
      WordsOfBlankEnd(s[1..], w);
    } else {
      var n := WordLength(s);
      WordLengthExtended(s, w);
      assert (s + [w])[..n] == s[..n];
      assert (s + [w])[n..] == s[n..] + [w];
      WordsOfBlankEnd(s[n..], w);
    }
  }

  lemma {:induction false} WordLengthExtended(s: string, w: char)
    requires IsWhitespace(w)
    ensures WordLength(s + [w]) == WordLength(s)
  {
    if s != "" && !IsWhitespace(s[0]) {
      assert (s + [w])[1..] == s[1..] + [w];
      WordLengthExtended(s[1..], w);
    }
  }

  lemma TrimOfBlankEnd(s: string, w: char)
    requires IsWhitespace(w)
    ensures Trim(s + [w]) == Trim(s)
  {
    TrimStartBlankEnd(s, w);
  }

  lemma {:induction false} TrimStartBlankEnd(s: string, w: char)
    requires IsWhitespace(w)
    ensures TrimStart(s + [w]) == TrimStart(s) + [w] || (TrimStart(s) == "" && TrimStart(s + [w]) == "")
  {
    if s == "" {
      assert (s + [w])[1..] == "";
    } else if IsWhitespace(s[0]) {
      assert (s + [w])[1..] == s[1..] + [w];
      TrimStartBlankEnd(s[1..], w);
    }
  }

  lemma PrefixIgnoresCr(prefix: string, line: string)
    requires '\r' !in prefix
    ensures prefix <= line + ['\r'] <==> prefix <= line
  {
    if prefix <= line + ['\r'] {
      if prefix != "" {
        var k := |prefix| - 1;
        assert prefix[k] == (line + ['\r'])[k];
        assert prefix[k] in prefix;
      }
      assert (line + ['\r'])[..|prefix|] == line[..|prefix|];
    }
  }

  lemma HeaderIgnoresCr(line: string, longer: string, o: Oracle)
    requires longer == line + ['\r']
    ensures "+++ " <= line ==> NormalizeDiffPath(longer[4..]) == NormalizeDiffPath(line[4..])
    ensures "+" <= line ==> EffectiveLine(longer[1..], o) == EffectiveLine(line[1..], o)
  {
    if "+++ " <= line {
      assert longer[4..] == line[4..] + ['\r'];
      TrimOfBlankEnd(line[4..], '\r');
    }
    if "+" <= line {
      assert longer[1..] == line[1..] + ['\r'];
      WordsOfBlankEnd(line[1..], '\r');
    }
  }

  lemma PrefixesIgnoreCr(line: string, longer: string)
    requires longer == line + ['\r']
    ensures ("diff --git " <= longer <==> "diff --git " <= line) && ("@@ " <= longer <==> "@@ " <= line)
    ensures ("+++ " <= longer <==> "+++ " <= line) && ("--- " <= longer <==> "--- " <= line)
    ensures ("+" <= longer <==> "+" <= line) && ("-" <= longer <==> "-" <= line)
  {
    PrefixIgnoresCr("diff --git ", line);
    PrefixIgnoresCr("@@ ", line);
    PrefixIgnoresCr("+++ ", line);
    PrefixIgnoresCr("--- ", line);
    PrefixIgnoresCr("+", line);
    PrefixIgnoresCr("-", line);
  }

  /** Lines that start alike and name the same path or text are read alike. */
  lemma ReadAlike(st: Parser, a: string, b: string, o: Oracle)
    requires ("diff --git " <= a <==> "diff --git " <= b) && ("@@ " <= a <==> "@@ " <= b)
    requires ("+++ " <= a <==> "+++ " <= b) && ("--- " <= a <==> "--- " <= b)
    requires ("+" <= a <==> "+" <= b) && ("-" <= a <==> "-" <= b)
    requires "+++ " <= a ==> NormalizeDiffPath(a[4..]) == NormalizeDiffPath(b[4..])
    requires "+" <= a ==> EffectiveLine(a[1..], o) == EffectiveLine(b[1..], o)
    ensures Step(st, a, o) == Step(st, b, o)
  {
  }

  /** A carriage return before the newline makes no difference to the parser. */
  lemma StepIgnoresCr(st: Parser, line: string, o: Oracle)
    ensures Step(st, StripCr(line), o) == Step(st, line, o)
  {
    var stripped := StripCr(line);
    if stripped != line {
      assert line == stripped + ['\r'];
      PrefixesIgnoreCr(stripped, line);
      HeaderIgnoresCr(stripped, line, o);
      ReadAlike(st, stripped, line, o);
    }
  }

  lemma {:induction false} ParseIgnoresCr(st: Parser, lines: seq<string>, o: Oracle)
    ensures Parse(st, seq(|lines|, i requires 0 <= i < |lines| => StripCr(lines[i])), o) == Parse(st, lines, o)
    decreases |lines|
  {
    if lines != [] {
      var stripped := seq(|lines|, i requires 0 <= i < |lines| => StripCr(lines[i]));
      var rest := lines[1..];
      assert stripped[1..] == seq(|rest|, i requires 0 <= i < |rest| => StripCr(rest[i]));
      StepIgnoresCr(st, lines[0], o);
      ParseIgnoresCr(Step(st, lines[0], o), rest, o);
    }
  }

  // ----- normalising twice -----

  predicate IsWord(w: string) {
    w != "" && forall i :: 0 <= i < |w| ==> !IsWhitespace(w[i])
  }

  lemma {:induction false} WordsAreWords(s: string)
    ensures forall w :: w in Words(s) ==> IsWord(w)
    decreases |s|
  {
    if s != "" {
      if IsWhitespace(s[0]) {
        WordsAreWords(s[1..]);
      } else {
        WordsAreWords(s[WordLength(s)..]);
      }
    }
  }

  lemma {:induction false} WordLengthOf(w: string, rest: string)
    requires (forall i :: 0 <= i < |w| ==> !IsWhitespace(w[i])) && (rest != "" ==> IsWhitespace(rest[0]))
    ensures WordLength(w + rest) == |w|
  {
    if w != "" {
      assert (w + rest)[1..] == w[1..] + rest;
      WordLengthOf(w[1..], rest);
    }
  }

  lemma {:induction false} WordsOfJoin(words: seq<string>)
    requires forall w :: w in words ==> IsWord(w)
    ensures Words(Join(words, " ")) == words
  {
    if words != [] {
      var w, rest := words[0], words[1..];
      assert w in words && forall v :: v in rest ==> v in words;
      WordsOfJoin(rest);
      var tail := if rest == [] then "" else " " + Join(rest, " ");
      assert Join(words, " ") == w + tail;
      WordLengthOf(w, tail);
      assert (w + tail)[..|w|] == w && (w + tail)[|w|..] == tail;
      assert Words(tail) == Words(Join(rest, " ")) by {
        if rest != [] { assert tail[1..] == Join(rest, " "); }
      }
    }
  }

  /** Normalised lines are fixed points: blanks are already single and inside only. */
  lemma NormalizedTwice(line: string)
    ensures Normalized(Normalized(line)) == Normalized(line)
  {
    WordsAreWords(line);
    WordsOfJoin(Words(line));
  }
}
