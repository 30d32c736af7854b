/** Printing a structured git diff and parsing it back gives its exact line counts and
    the fingerprints of its effective added lines. */
module DiffRoundTrip {
  import opened Text
  import opened AcceptedLines

  datatype HunkLine = Context(text: string) | Added(text: string) | Removed(text: string) | Marker(text: string)

  datatype Hunk = Hunk(header: string, lines: seq<HunkLine>)

  /** The part of a file's diff that has content; a deleted file has no new path. */
  datatype Patch = Patch(oldName: string, newPath: Option<string>, hunks: seq<Hunk>)

  datatype FileDiff = FileDiff(names: string, extended: seq<string>, patch: Option<Patch>)

  // ----- printing -----

  function PrintLine(l: HunkLine): string {
    match l
    case Context(t) => " " + t
    case Added(t) => "+" + t
    case Removed(t) => "-" + t
    case Marker(t) => "\\" + t
  }

  function PrintHunkLines(lines: seq<HunkLine>): seq<string> {
    if lines == [] then [] else PrintHunkLines(lines[..|lines| - 1]) + [PrintLine(lines[|lines| - 1])]
  }

  function PrintHunks(hunks: seq<Hunk>): seq<string> {
    if hunks == [] then []
    else
      var last := hunks[|hunks| - 1];
      PrintHunks(hunks[..|hunks| - 1]) + (["@@ " + last.header] + PrintHunkLines(last.lines))
  }

  function PrintPath(path: Option<string>): string {
    match path
    case Some(p) => "b/" + p
    case None => "/dev/null"
  }

  function PrintPatch(p: Patch): seq<string> {
    ["--- " + p.oldName, "+++ " + PrintPath(p.newPath)] + PrintHunks(p.hunks)
  }

  function PrintFile(f: FileDiff): seq<string> {
    ["diff --git " + f.names] + (f.extended + (if f.patch.Some? then PrintPatch(f.patch.value) else []))
  }

  function PrintDiff(files: seq<FileDiff>): seq<string> {
    if files == [] then [] else PrintDiff(files[..|files| - 1]) + PrintFile(files[|files| - 1])
  }

  // ----- what the parser should find -----

  function Plus(a: Summary, b: Summary): Summary {
    Summary(a.added + b.added, a.deleted + b.deleted, a.fingerprints + b.fingerprints)
  }

  const NOTHING := Summary(0, 0, [])

  function LineSummary(path: Option<string>, l: HunkLine, o: Oracle): Summary {
    match l
    case Added(t) => Summary(1, 0, FingerprintsOf(path, t, o))
    case Removed(_) => Summary(0, 1, [])
    case _ => NOTHING
  }

  function LinesSummary(path: Option<string>, lines: seq<HunkLine>, o: Oracle): Summary {
    if lines == [] then NOTHING
    else Plus(LinesSummary(path, lines[..|lines| - 1], o), LineSummary(path, lines[|lines| - 1], o))
  }

  function HunksSummary(path: Option<string>, hunks: seq<Hunk>, o: Oracle): Summary {
    if hunks == [] then NOTHING
    else Plus(HunksSummary(path, hunks[..|hunks| - 1], o), LinesSummary(path, hunks[|hunks| - 1].lines, o))
  }

  function FileSummary(f: FileDiff, o: Oracle): Summary {
    match f.patch
    case Some(p) => HunksSummary(p.newPath, p.hunks, o)
    case None => NOTHING
  }

  /** Added and removed lines counted file by file, hunk by hunk; fingerprints in reading order,
      each under its own file's path. */
  function DiffSummary(files: seq<FileDiff>, o: Oracle): Summary {
    if files == [] then NOTHING
    else Plus(DiffSummary(files[..|files| - 1], o), FileSummary(files[|files| - 1], o))
  }

  // ----- which diffs -----

  predicate PlainHeader(line: string) {
    !("+" <= line) && !("-" <= line) && !("@@ " <= line) && !("diff --git " <= line)
  }

  predicate PlainPath(path: Option<string>) {
    path.Some? && path.value != "" ==> !IsWhitespace(path.value[|path.value| - 1])
  }

  predicate GitStyle(f: FileDiff) {
    && (forall h :: h in f.extended ==> PlainHeader(h))
    && (f.patch.Some? ==> PlainPath(f.patch.value.newPath))
  }

  ghost predicate OneLinePerLine(files: seq<FileDiff>) {
    forall l :: l in PrintDiff(files) ==> '\n' !in l
  }

  // ----- the proof -----

  lemma PrintedPathReadsBack(path: Option<string>)
    requires PlainPath(path)
    ensures NormalizeDiffPath(PrintPath(path)) == path
  {
    var printed := PrintPath(path);
    assert printed[0] == if path.Some? then 'b' else '/';
    assert TrimStart(printed) == printed;
    assert !IsWhitespace(printed[|printed| - 1]);
    assert TrimEnd(printed) == printed;
    if path.Some? {
      assert printed[2..] == path.value;
      assert printed[0] == 'b' && "/dev/null"[0] == '/';
    }
  }

  /** In a hunk every line counts by its first character, header look-alikes included. */
  lemma HunkLineStep(st: Parser, l: HunkLine, o: Oracle)
    requires st.inHunk
    ensures Step(st, PrintLine(l), o) == st.(summary := Plus(st.summary, LineSummary(st.path, l, o)))
  {
    var line := PrintLine(l);
    assert line[1..] == l.text;
    assert line[0] == match l case Context(_) => ' ' case Added(_) => '+' case Removed(_) => '-' case Marker(_) => '\\';
    assert "diff --git "[0] == 'd' && "@@ "[0] == '@' && "+"[0] == '+' && "-"[0] == '-';
    assert l.Added? ==> line == "+" + l.text;
    assert l.Removed? ==> line == "-" + l.text;
    assert st.summary.fingerprints + [] == st.summary.fingerprints;
  }

  lemma {:induction false} HunkLinesParse(st: Parser, lines: seq<HunkLine>, o: Oracle)
    requires st.inHunk
    ensures Parse(st, PrintHunkLines(lines), o) == st.(summary := Plus(st.summary, LinesSummary(st.path, lines, o)))
  {
    if lines == [] {
      PlusNothing(st.summary);
    } else {
      var k := |lines| - 1;
      HunkLinesParse(st, lines[..k], o);
      var mid := Parse(st, PrintHunkLines(lines[..k]), o);
      ParseOne(st, PrintHunkLines(lines[..k]), PrintLine(lines[k]), o);
      HunkLineStep(mid, lines[k], o);
      PlusAssoc(st.summary, LinesSummary(st.path, lines[..k], o), LineSummary(st.path, lines[k], o));
    }
  }

  lemma ParseOne(st: Parser, lines: seq<string>, last: string, o: Oracle)
    ensures Parse(st, lines + [last], o) == Step(Parse(st, lines, o), last, o)
  {
    ParseAppend(st, lines, [last], o);
    assert [last][1..] == [];
  }

  lemma ParseFirst(st: Parser, first: string, rest: seq<string>, o: Oracle)
    ensures Parse(st, [first] + rest, o) == Parse(Step(st, first, o), rest, o)
  {
    assert ([first] + rest)[1..] == rest;
  }

  lemma PlusNothing(a: Summary)
    ensures Plus(a, NOTHING) == a
  {
    assert a.fingerprints + [] == a.fingerprints;
  }

  lemma PlusAssoc(a: Summary, b: Summary, c: Summary)
    ensures Plus(a, Plus(b, c)) == Plus(Plus(a, b), c)
  {
    assert a.fingerprints + (b.fingerprints + c.fingerprints) == a.fingerprints + b.fingerprints + c.fingerprints;
  }

  lemma HunkHeaderStep(st: Parser, header: string, o: Oracle)
    ensures Step(st, "@@ " + header, o) == st.(inHunk := true)
  {
    assert !("diff --git " <= "@@ " + header) by {
      assert ("@@ " + header)[0] == '@';
    }
  }

  lemma {:induction false} HunksParse(st: Parser, hunks: seq<Hunk>, o: Oracle)
    ensures Parse(st, PrintHunks(hunks), o) ==
      st.(inHunk := st.inHunk || hunks != [], summary := Plus(st.summary, HunksSummary(st.path, hunks, o)))
  {
    if hunks == [] {
      PlusNothing(st.summary);
    } else {
      var k := |hunks| - 1;
      var last := hunks[k];
      HunksParse(st, hunks[..k], o);
      var mid := Parse(st, PrintHunks(hunks[..k]), o);
      var printed := ["@@ " + last.header] + PrintHunkLines(last.lines);
      ParseAppend(st, PrintHunks(hunks[..k]), printed, o);
      ParseFirst(mid, "@@ " + last.header, PrintHunkLines(last.lines), o);
      HunkHeaderStep(mid, last.header, o);
      HunkLinesParse(mid.(inHunk := true), last.lines, o);
      PlusAssoc(st.summary, HunksSummary(st.path, hunks[..k], o), LinesSummary(st.path, last.lines, o));
    }
  }

  lemma {:induction false} ExtendedParse(st: Parser, headers: seq<string>, o: Oracle)
    requires forall h :: h in headers ==> PlainHeader(h)
    ensures Parse(st, headers, o) == st
    decreases |headers|
  {
    if headers != [] {
      PlainHeaderStep(st, headers[0], o);
      assert forall h :: h in headers[1..] ==> h in headers;
      ExtendedParse(st, headers[1..], o);
    }
  }

  lemma PlainHeaderStep(st: Parser, h: string, o: Oracle)
    requires PlainHeader(h)
    ensures Step(st, h, o) == st
  {
    assert "+++ " <= h ==> "+" <= h by { assert "+++ "[..1] == "+"; }
    assert "--- " <= h ==> "-" <= h by { assert "--- "[..1] == "-"; }
  }

  lemma FileHeaderSteps(st: Parser, p: Patch, o: Oracle)
    requires !st.inHunk && PlainPath(p.newPath)
    ensures Step(Step(st, "--- " + p.oldName, o), "+++ " + PrintPath(p.newPath), o) == st.(path := p.newPath)
  {
    var before, after := "--- " + p.oldName, "+++ " + PrintPath(p.newPath);
    assert before[0] == '-' && after[0] == '+';
    assert !("diff --git " <= before) && !("@@ " <= before) && !("+++ " <= before);
    assert !("diff --git " <= after) && !("@@ " <= after);
    assert after[4..] == PrintPath(p.newPath);
    PrintedPathReadsBack(p.newPath);
  }

  lemma PatchParse(st: Parser, p: Patch, o: Oracle)
    requires !st.inHunk && PlainPath(p.newPath)
    ensures Parse(st, PrintPatch(p), o).summary == Plus(st.summary, HunksSummary(p.newPath, p.hunks, o))
  {
    var before, after := "--- " + p.oldName, "+++ " + PrintPath(p.newPath);
    assert PrintPatch(p) == [before] + ([after] + PrintHunks(p.hunks));
    ParseFirst(st, before, [after] + PrintHunks(p.hunks), o);
    ParseFirst(Step(st, before, o), after, PrintHunks(p.hunks), o);
    FileHeaderSteps(st, p, o);
    HunksParse(st.(path := p.newPath), p.hunks, o);
  }

  lemma GitHeaderStep(st: Parser, names: string, o: Oracle)
    ensures Step(st, "diff --git " + names, o) == st.(path := None, inHunk := false)
  {
  }

  lemma FileParse(st: Parser, f: FileDiff, o: Oracle)
    requires GitStyle(f)
    ensures Parse(st, PrintFile(f), o).summary == Plus(st.summary, FileSummary(f, o))
  {
    var rest := if f.patch.Some? then PrintPatch(f.patch.value) else [];
    var reset := st.(path := None, inHunk := false);
    ParseFirst(st, "diff --git " + f.names, f.extended + rest, o);
    GitHeaderStep(st, f.names, o);
    ParseAppend(reset, f.extended, rest, o);
    ExtendedParse(reset, f.extended, o);
    if f.patch.Some? {
      PatchParse(reset, f.patch.value, o);
    } else {
      PlusNothing(st.summary);
    }
  }

  lemma {:induction false} DiffParse(files: seq<FileDiff>, o: Oracle)
    requires forall f :: f in files ==> GitStyle(f)
    ensures Parse(FRESH, PrintDiff(files), o).summary == DiffSummary(files, o)
  {
    if files != [] {
      var k := |files| - 1;
      DiffParse(files[..k], o);
      ParseAppend(FRESH, PrintDiff(files[..k]), PrintFile(files[k]), o);
      FileParse(Parse(FRESH, PrintDiff(files[..k]), o), files[k], o);
    }
  }

  /** Parsing the printed text of a git-style diff finds exactly what the diff holds, with or
      without carriage returns at the line ends. */
  lemma PrintedDiffReadsBack(files: seq<FileDiff>, o: Oracle)
    requires (forall f :: f in files ==> GitStyle(f)) && OneLinePerLine(files)
    ensures Parse(FRESH, Lines(Unlines(PrintDiff(files))), o).summary == DiffSummary(files, o)
  {
    var printed := PrintDiff(files);
    LinesOfUnlines(printed, "");
    assert Unlines(printed) + "" == Unlines(printed);
    var stripped := seq(|printed|, i requires 0 <= i < |printed| => StripCr(printed[i]));
    assert Lines(Unlines(printed)) == stripped + [];
    assert stripped + [] == stripped;
    ParseIgnoresCr(FRESH, printed, o);
    DiffParse(files, o);
  }
}
