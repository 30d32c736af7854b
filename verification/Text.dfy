/** Text helpers shared by the models: the parts of Rust's `str` API the source relies on,
    over sequences of Unicode scalar values. */
module Text {

  datatype Option<+T> = None | Some(value: T)

  datatype Result<+T, +E> = Ok(value: T) | Err(error: E)

  /** Unicode `White_Space`, the class `char::is_whitespace` and `str::trim` use. */
  predicate IsWhitespace(c: char) {
    var n := c as int;
    || 0x09 <= n <= 0x0D || n == 0x20 || n == 0x85 || n == 0xA0 || n == 0x1680
    || 0x2000 <= n <= 0x200A || n == 0x2028 || n == 0x2029 || n == 0x202F
    || n == 0x205F || n == 0x3000
  }

  predicate AllWhitespace(s: string) {
    forall i :: 0 <= i < |s| ==> IsWhitespace(s[i])
  }

  function TrimStart(s: string): string {
    if s != "" && IsWhitespace(s[0]) then TrimStart(s[1..]) else s
  }

  function TrimEnd(s: string): string {
    if s != "" && IsWhitespace(s[|s| - 1]) then TrimEnd(s[..|s| - 1]) else s
  }

  function Trim(s: string): string {
    TrimEnd(TrimStart(s))
  }

  predicate Trimmed(s: string) {
    s != "" ==> !IsWhitespace(s[0]) && !IsWhitespace(s[|s| - 1])
  }

  /** `parts.join(sep)`. */
  function Join(parts: seq<string>, sep: string): string {
    if |parts| == 0 then ""
    else if |parts| == 1 then parts[0]
    else parts[0] + sep + Join(parts[1..], sep)
  }

  /** `str::replace`: every non-overlapping occurrence, left to right. */
  function ReplaceAll(s: string, pattern: string, replacement: string): string
    requires pattern != ""
    decreases |s|
  {
    if s == "" then ""
    else if pattern <= s then replacement + ReplaceAll(s[|pattern|..], pattern, replacement)
    else [s[0]] + ReplaceAll(s[1..], pattern, replacement)
  }

  /** `s.split(c)`: the pieces between occurrences of `c`, at least one. */
  function SplitOn(s: string, c: char): (r: seq<string>)
    ensures |r| > 0
  {
    if s == "" then [""]
    else
      var rest := SplitOn(s[1..], c);
      if s[0] == c then [""] + rest else [[s[0]] + rest[0]] + rest[1..]
  }

  function Segments(s: string): (r: seq<string>)
    ensures |r| > 0
  {
    SplitOn(s, '/')
  }

  function FirstSegment(s: string): string {
    Segments(s)[0]
  }

  /** A carriage return right before a newline belongs to the line ending. */
  function StripCr(line: string): string {
    if line != "" && line[|line| - 1] == '\r' then line[..|line| - 1] else line
  }

  /** `str::lines` */
  function Lines(s: string): seq<string> {
    var pieces := SplitOn(s, '\n');
    var last := pieces[|pieces| - 1];
    seq(|pieces| - 1, i requires 0 <= i < |pieces| - 1 => StripCr(pieces[i])) + (if last == "" then [] else [last])
  }

  /** Every line with its newline. */
  function Unlines(lines: seq<string>): string {
    if lines == [] then "" else lines[0] + "\n" + Unlines(lines[1..])
  }

  // ----- lemmas -----

  lemma {:induction false} SplitOnSplit(a: string, c: char, b: string)
    requires c !in a
    ensures SplitOn(a + [c] + b, c) == [a] + SplitOn(b, c)
  {
    var s := a + [c] + b;
    if a == "" {
      assert s[1..] == b;
    } else {
      SplitOnSplit(a[1..], c, b);
      assert s[1..] == a[1..] + [c] + b;
      assert a == [a[0]] + a[1..];
    }
  }

  lemma {:induction false} SplitOnSingle(a: string, c: char)
    requires c !in a
    ensures SplitOn(a, c) == [a]
  {
    if a != "" {
      SplitOnSingle(a[1..], c);
      assert a == [a[0]] + a[1..];
    }
  }

  lemma SegmentsSplit(a: string, b: string)
    requires '/' !in a
    ensures Segments(a + "/" + b) == [a] + Segments(b)
  {
    SplitOnSplit(a, '/', b);
  }

  lemma SegmentsSingle(a: string)
    requires '/' !in a
    ensures Segments(a) == [a]
  {
    SplitOnSingle(a, '/');
  }

  lemma Associate<T>(a: seq<T>, b: seq<T>, c: seq<T>)
    ensures (a + b) + c == a + (b + c)
  {
  }

  lemma AssociateAll(a: string, b: string, c: string, d: string)
    ensures a + b + c + d == a + (b + c + d)
  {
    Associate(a, b, c);
    Associate(a, b + c, d);
  }

  /** The first line of a text that has one, and the rest. */
  lemma LinesFirst(line: string, rest: string)
    requires '\n' !in line
    ensures Lines(line + "\n" + rest) == [StripCr(line)] + Lines(rest)
  {
    SplitOnSplit(line, '\n', rest);
    var pieces := SplitOn(rest, '\n');
    assert SplitOn(line + "\n" + rest, '\n') == [line] + pieces;
  }

  /** Reading back printed lines, up to carriage returns at their ends. */
  lemma {:induction false} LinesOfUnlines(lines: seq<string>, rest: string)
    requires forall l :: l in lines ==> '\n' !in l
    ensures Lines(Unlines(lines) + rest) == seq(|lines|, i requires 0 <= i < |lines| => StripCr(lines[i])) + Lines(rest)
  {
    if lines == [] {
      assert Unlines(lines) + rest == rest;
    } else {
      var tail := Unlines(lines[1..]) + rest;
      assert Unlines(lines) + rest == lines[0] + "\n" + tail;
      LinesFirst(lines[0], tail);
      assert forall l :: l in lines[1..] ==> l in lines;
      LinesOfUnlines(lines[1..], rest);
    }
  }

  /** A string is left alone when its slashes stop before the pattern's last slash could fit. */
  lemma {:induction false} ReplaceNothing(s: string, pattern: string, replacement: string, slash: nat)
    requires pattern != "" && pattern[|pattern| - 1] == '/'
    requires slash < |pattern| - 1
    requires forall i :: slash < i < |s| ==> s[i] != '/'
    ensures ReplaceAll(s, pattern, replacement) == s
    decreases |s|
  {
    if s != "" {
      if pattern <= s {
        assert false;
      }
      ReplaceNothing(s[1..], pattern, replacement, slash);
    }
  }
}
