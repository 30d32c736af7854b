/** Filtering a request file twice is filtering it once, imports included. */
module RefilterImports {
  import opened Text
  import opened Scanner
  import opened Splitting
  import opened ArmParser
  import opened RequestFilter

  predicate Clean(line: string) {
    '\n' !in line && '\r' !in line
  }

  lemma {:induction false} SelectAppend(a: seq<string>, b: seq<string>, keep: string -> bool)
    ensures Select(a + b, keep) == Select(a, keep) + Select(b, keep)
  {
    if a == [] {
      assert a + b == b;
    } else {
      assert (a + b)[1..] == a[1..] + b;
      SelectAppend(a[1..], b, keep);
    }
  }

  lemma {:induction false} JoinAfterLines(above: seq<string>, rest: seq<string>)
    requires rest != []
    ensures Join(above + rest, "\n") == Unlines(above) + Join(rest, "\n")
  {
    if above == [] {
      assert above + rest == rest;
    } else {
      var all := above + rest;
      assert all[1..] == above[1..] + rest;
      JoinAfterLines(above[1..], rest);
      assert Join(all, "\n") == above[0] + "\n" + (Unlines(above[1..]) + Join(rest, "\n"));
    }
  }

  lemma TailEnds(a: string, tail: string)
    requires tail != ""
    ensures EndsInNewline(a + tail) <==> EndsInNewline(tail)
  {
    assert (a + tail)[|a + tail| - 1] == tail[|tail| - 1];
  }

  lemma JoinFirst(line: string, lines: seq<string>)
    requires lines != []
    ensures Join([line] + lines, "\n") == line + "\n" + Join(lines, "\n")
  {
    assert ([line] + lines)[1..] == lines;
  }

  /** Lines joined again give the text back. */
  lemma {:induction false} JoinOfLines(text: string)
    requires '\r' !in text
    ensures Join(Lines(text), "\n") + Ending(text) == text
    ensures text != "" ==> Lines(text) != []
    decreases |text|
  {
    match IndexOf(text, '\n')
    case None =>
      SplitOnSingle(text, '\n');
    case Some(i) =>
      var line, rest := text[..i], text[i + 1..];
      assert text == line + "\n" + rest;
      LinesFirst(line, rest);
      assert StripCr(line) == line by {
        if line != "" { assert line[|line| - 1] in text; }
      }
      assert forall c :: c in rest ==> c in text;
      JoinOfLines(rest);
      if rest == "" {
        assert Lines(rest) == [] && [line] + [] == [line];
      } else {
        TailEnds(line + "\n", rest);
        JoinFirst(line, Lines(rest));
        Associate(line + "\n", Join(Lines(rest), "\n"), Ending(rest));
      }
  }

  lemma {:induction false} CleanLines(lines: seq<string>)
    requires forall l :: l in lines ==> Clean(l)
    ensures seq(|lines|, i requires 0 <= i < |lines| => StripCr(lines[i])) == lines
  {
    forall i | 0 <= i < |lines| ensures StripCr(lines[i]) == lines[i] {
      assert lines[i] in lines;
      if lines[i] != "" { assert lines[i][|lines[i]| - 1] in lines[i]; }
    }
  }

  /** A line filter that keeps every line of the tail works on the lines above only. */
  lemma SelectAbove(above: seq<string>, tail: string, keep: string -> bool)
    requires (forall l :: l in above ==> Clean(l)) && '\r' !in tail && tail != ""
    requires forall l :: l in Lines(tail) ==> keep(l)
    ensures Join(Select(Lines(Unlines(above) + tail), keep), "\n")
      + Ending(Unlines(above) + tail) == Unlines(Select(above, keep)) + tail
  {
    LinesOfUnlines(above, tail);
    CleanLines(above);
    SelectAppend(above, Lines(tail), keep);
    SelectAll(Lines(tail), keep);
    JoinOfLines(tail);
    JoinAfterLines(Select(above, keep), Lines(tail));
    TailEnds(Unlines(above), tail);
    Associate(Unlines(Select(above, keep)), Join(Lines(tail), "\n"), Ending(tail));
  }

  lemma NoImportIsKept(lines: seq<string>, scope: string)
    requires forall l :: l in lines ==> ImportedName(l).None?
    ensures forall l :: l in lines ==> KeepLine(scope)(l)
  {
  }

  lemma {:induction false} UnlinesHolds(lines: seq<string>, c: char)
    requires c != '\n'
    ensures c in Unlines(lines) <==> exists l :: l in lines && c in l
  {
    if lines != [] {
      UnlinesHolds(lines[1..], c);
      assert lines == [lines[0]] + lines[1..];
    }
  }

  lemma SelectedLinesHold(lines: seq<string>, keep: string -> bool, c: char)
    requires c != '\n' && c !in Unlines(lines)
    ensures c !in Unlines(Select(lines, keep))
  {
    UnlinesHolds(lines, c);
    UnlinesHolds(Select(lines, keep), c);
    SelectMembers(lines, keep);
  }

  lemma SelectTwice(parts: seq<string>, keep: string -> bool)
    ensures Select(Select(parts, keep), keep) == Select(parts, keep)
  {
    SelectMembers(parts, keep);
    SelectAll(Select(parts, keep), keep);
  }

  /** A generated file: import and comment lines, then the alias, whose `=` is on its first line. */
  ghost predicate Generated(above: seq<string>, start: string, a: Alias) {
    && WellFormed(a) && a.prefix == Unlines(above) + start && '\n' !in start
    && (forall l :: l in above ==> Clean(l))
    && '\r' !in start && '\r' !in a.suffix
  }

  /** Dropping lines above the alias keeps it an alias. */
  lemma PrunedAlias(above: seq<string>, start: string, a: Alias, keep: string -> bool)
    requires Generated(above, start, a)
    ensures start != ""
    ensures Generated(Select(above, keep), start, a.(prefix := Unlines(Select(above, keep)) + start))
  {
    var prefix := a.prefix;
    var kept := Unlines(Select(above, keep));
    assert start != "" by {
      if start == "" {
        assert prefix == Unlines(above);
        UnlinesEnd(above);
        assert false;
      }
    }
    assert start[|start| - 1] == '=';
    assert prefix[..|prefix| - 1] == Unlines(above) + start[..|start| - 1];
    SelectedLinesHold(above, keep, '=');
    assert (kept + start)[..|kept + start| - 1] == kept + start[..|start| - 1];
    SelectMembers(above, keep);
  }

  lemma {:induction false} UnlinesEnd(lines: seq<string>)
    ensures Unlines(lines) != "" ==> Unlines(lines)[|Unlines(lines)| - 1] == '\n'
  {
    if lines != [] {
      UnlinesEnd(lines[1..]);
    }
  }

  /** Filtering a filtered file changes nothing. */
  lemma FilteringTwice(content: string, experimental: set<string>, above: seq<string>, start: string)
    requires SplitTypeAlias(content).Some? && Generated(above, start, SplitTypeAlias(content).value)
    requires var a := SplitTypeAlias(content).value;
      var kept := KeptArms(a.body, experimental);
      && OnlyLastEndsInLineComment(kept)
      && '\r' !in Join(kept, " | ")
      && (forall l :: l in Lines(start + Join(kept, " | ") + a.suffix) ==> ImportedName(l).None?)
    ensures FilterRequestTs(FilterRequestTs(content, experimental), experimental) == FilterRequestTs(content, experimental)
  {
    var a := SplitTypeAlias(content).value;
    var kept := KeptArms(a.body, experimental);
    var body := Join(kept, " | ");
    FilteredUnionResplits(content, experimental);
    BodyReplaced(a, body);
    var keep := KeepLine(body);
    PrunedAlias(above, start, a, keep);
    FilteredOnce(above, start, a, body);
    var once := FilterRequestTs(content, experimental);
    var b := a.(prefix := Unlines(Select(above, keep)) + start);
    assert once == b.prefix + body + b.suffix;
    BodyReplaced(b, body);
    assert KeptArms(body, experimental) == kept by {
      SelectMembers(Split(a.body, BAR), KeepArm(experimental));
      SelectAll(kept, KeepArm(experimental));
    }
    assert FilteredContent(once, experimental) == once;
    FilteredOnce(Select(above, keep), start, b, body);
    SelectTwice(above, keep);
  }

  lemma FilteredOnce(above: seq<string>, start: string, a: Alias, body: string)
    requires Generated(above, start, a) && '\r' !in body && start != ""
    requires forall l :: l in Lines(start + body + a.suffix) ==> ImportedName(l).None?
    ensures PrunedImports(a.prefix + body + a.suffix, body) ==
      Unlines(Select(above, KeepLine(body))) + start + body + a.suffix
  {
    var tail := start + body + a.suffix;
    AssociateAll(Unlines(above), start, body, a.suffix);
    NoImportIsKept(Lines(tail), body);
    SelectAbove(above, tail, KeepLine(body));
    AssociateAll(Unlines(Select(above, KeepLine(body))), start, body, a.suffix);
  }}
