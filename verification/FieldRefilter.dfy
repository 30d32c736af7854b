/** The fields of a filtered type come back from its text, exactly when none ends in a line comment and the
    last one leaves no brace open. */
module FieldRefilter {
  import opened Text
  import opened Scanner
  import opened Splitting
  import opened ArmParser
  import opened Nesting
  import opened RequestFilter
  import opened FieldFilter

  // ----- the fields of a body, in turn -----

  /** The text up to the first cut, and what follows it. */
  lemma {:induction false} FirstCut(s: Scan, text: string, delimiters: set<char>) returns (n: nat)
    ensures n <= |text| && NoCut(s, text[..n], delimiters)
    ensures n == |text| ==> Pieces(s, text, delimiters) == [text]
    ensures n < |text| ==>
      && text[n] in delimiters && Run(s, text[..n]).Cuttable()
      && Pieces(s, text, delimiters) ==
           [text[..n]] + Pieces(Observe(Run(s, text[..n]), text[n]), text[n + 1..], delimiters)
    decreases |text|
  {
    if text == "" || (s.Cuttable() && text[0] in delimiters) {
      n := 0;
    } else {
      var m := FirstCut(Observe(s, text[0]), text[1..], delimiters);
      n := m + 1;
      assert text[..n][1..] == text[1..][..m] && [text[0]] + text[1..][..m] == text[..n];
      if n < |text| {
        assert text[1..][m + 1..] == text[n + 1..];
      } else {
        assert [text[0]] + text[1..] == text;
      }
    }
  }

  /** Read one after the other, no field is noted by the search for the body's braces. `deep` says that
      no brace has been closed yet that the fields did not open. */
  predicate InTurn(fields: seq<string>, deep: bool) {
    fields == [] || (Quiet(Lift(START, deep), fields[0]) && InTurn(fields[1..], deep && NeverCloses(START, fields[0])))
  }

  lemma PlainIsQuiet(s: Scan, ch: char, text: string)
    requires Plain(ch)
    ensures Quiet(s, [ch] + text) <==> Quiet(Observe(s, ch), text)
  {
    assert ([ch] + text)[1..] == text;
  }

  /** A body without a cut up to `n`: what is quiet as a whole is quiet on both sides of the cut. */
  lemma QuietAtCut(s: Scan, deep: bool, text: string, n: nat)
    requires Base(s) && n < |text| && Plain(text[n]) && Quiet(Lift(s, deep), text)
    ensures var head, deep' := text[..n], deep && NeverCloses(START, text[..n]);
      Quiet(Lift(START, deep), head) && Quiet(Lift(Observe(Run(s, head), text[n]), deep'), text[n + 1..])
  {
    var head, tail := text[..n], text[n + 1..];
    assert text == head + ([text[n]] + tail);
    QuietAppend(Lift(s, deep), head, [text[n]] + tail);
    QuietAlike(s, START, deep, head);
    LiftRun(s, deep, head);
    NeverClosesAlike(s, START, head);
    var deep' := deep && NeverCloses(START, head);
    PlainIsQuiet(Lift(Run(s, head), deep'), text[n], tail);
    LiftStep(Run(s, head), deep', text[n]);
  }

  lemma {:induction false} PiecesInTurn(s: Scan, deep: bool, text: string, delimiters: set<char>)
    requires Base(s) && Quiet(Lift(s, deep), text) && forall d :: d in delimiters ==> Plain(d)
    ensures InTurn(Pieces(s, text, delimiters), deep)
    decreases |text|
  {
    var n := FirstCut(s, text, delimiters);
    if n == |text| {
      QuietAlike(s, START, deep, text);
    } else {
      var head, deep' := text[..n], deep && NeverCloses(START, text[..n]);
      QuietAtCut(s, deep, text, n);
      RunValid(s, head);
      PlainStep(Run(s, head), text[n]);
      var rest := Pieces(Observe(Run(s, head), text[n]), text[n + 1..], delimiters);
      PiecesInTurn(Observe(Run(s, head), text[n]), deep', text[n + 1..], delimiters);
      assert ([head] + rest)[1..] == rest;
    }
  }

  /** Trimming a piece changes nothing about this. */
  lemma TrimmedInTurn(piece: string, deep: bool)
    requires Quiet(Lift(START, deep), piece)
    ensures Quiet(Lift(START, deep), Trim(piece)) && NeverCloses(START, Trim(piece)) == NeverCloses(START, piece)
  {
    var p := Trim(piece);
    var before, after := TrimParts(piece);
    assert piece == before + (p + after);
    BlankRun(START, before);
    var s := Run(START, before);
    BlankNeverCloses(START, before);
    BlankNeverCloses(Run(s, p), after);
    NeverClosesAppend(START, before, p + after);
    NeverClosesAppend(s, p, after);
    NeverClosesAlike(s, START, p);
    QuietAppend(Lift(START, deep), before, p + after);
    LiftRun(START, deep, before);
    QuietAppend(Lift(s, deep), p, after);
    QuietAlike(s, START, deep, p);
  }

  lemma {:induction false} CleanedInTurn(pieces: seq<string>, deep: bool)
    requires InTurn(pieces, deep)
    ensures InTurn(Cleaned(pieces), deep)
    decreases |pieces|
  {
    if pieces != [] {
      TrimmedInTurn(pieces[0], deep);
      CleanedInTurn(pieces[1..], deep && NeverCloses(START, pieces[0]));
      var rest := Cleaned(pieces[1..]);
      assert ([Trim(pieces[0])] + rest)[1..] == rest;
    }
  }

  /** Fields that go unnoticed at top level do so one level deeper. */
  lemma {:induction false} InTurnDeeper(fields: seq<string>)
    requires InTurn(fields, false)
    ensures InTurn(fields, true)
    decreases |fields|
  {
    if fields != [] {
      QuietDeeper(START, fields[0]);
      InTurnDeeper(fields[1..]);
    }
  }

  lemma {:induction false} SelectedInTurn(fields: seq<string>, keep: string -> bool, deep: bool)
    requires InTurn(fields, deep)
    ensures InTurn(Select(fields, keep), deep)
    decreases |fields|
  {
    if fields != [] {
      var deep' := deep && NeverCloses(START, fields[0]);
      SelectedInTurn(fields[1..], keep, deep');
      var rest := Select(fields[1..], keep);
      if keep(fields[0]) {
        assert ([fields[0]] + rest)[1..] == rest;
      } else {
        assert [] + rest == rest;
        if deep && !deep' {
          InTurnDeeper(rest);
        }
      }
    }
  }

  // ----- where the fields end -----

  /** At top level, outside strings and comments, but for so many open braces. */
  predicate Near(s: Scan, braces: nat) {
    !s.Ignored() && s.brace <= braces && SameDepth(s, START.(brace := s.brace))
  }

  lemma {:induction false} PiecesEndNear(s: Scan, text: string, delimiters: set<char>, braces: nat)
    requires Base(s) && Near(Run(s, text), braces) && forall d :: d in delimiters ==> Plain(d)
    ensures forall i :: 0 <= i < |Pieces(s, text, delimiters)| ==> Near(Run(START, Pieces(s, text, delimiters)[i]), braces)
    decreases |text|
  {
    var n := FirstCut(s, text, delimiters);
    if n == |text| {
      BaseRunsAlike(s, START, text, {});
    } else {
      var head, tail := text[..n], text[n + 1..];
      assert text == head + ([text[n]] + tail) && ([text[n]] + tail)[1..] == tail;
      RunAppend(s, head, [text[n]] + tail);
      BaseRunsAlike(s, START, head, {});
      RunValid(s, head);
      PlainStep(Run(s, head), text[n]);
      PiecesEndNear(Observe(Run(s, head), text[n]), tail, delimiters, braces);
    }
  }

  predicate Tame(field: string, braces: nat) {
    EndsInLineComment(field) || Near(Run(START, field), braces)
  }

  lemma {:induction false} CleanedAreTame(pieces: seq<string>, braces: nat)
    requires forall i :: 0 <= i < |pieces| ==> Near(Run(START, pieces[i]), braces)
    ensures forall i :: 0 <= i < |Cleaned(pieces)| ==> Tame(Cleaned(pieces)[i], braces)
  {
    if pieces != [] {
      var rest := pieces[1..];
      assert forall i :: 0 <= i < |rest| ==> rest[i] == pieces[i + 1];
      CleanedAreTame(rest, braces);
      if Trim(pieces[0]) != "" {
        TrimmedRun(pieces[0]);
      }
    }
  }

  /** The body read without its braces: what the enclosing level adds falls away. */
  lemma EnclosedUnlifted(inner: string)
    requires Enclosed(inner)
    ensures Quiet(Lift(START, true), inner) && Near(Run(START, inner), if NeverCloses(START, inner) then 0 else 1)
  {
    QuietAlike(OPENED, START, true, inner);
    LiftRun(OPENED, true, inner);
    RunValid(Deeper(OPENED), inner);
    ShutsMeans(Run(Deeper(OPENED), inner));
    BaseRunsAlike(OPENED, START, inner, {});
    NeverClosesAlike(OPENED, START, inner);
  }

  lemma KeptAreTame(inner: string, names: set<string>, kept: seq<string>, braces: nat)
    requires Near(Run(START, inner), braces) && kept == KeptFields(inner, names)
    ensures Joinable(kept, FIELD_ENDS) && forall i :: 0 <= i < |kept| ==> Tame(kept[i], braces)
  {
    FieldSeparatorFits(FIELD_ENDS);
    var pieces, fields := Pieces(START, inner, FIELD_ENDS), Split(inner, FIELD_ENDS);
    SplitIsJoinable(inner, FIELD_ENDS);
    SelectIsJoinable(fields, KeepField(names), FIELD_ENDS);
    PiecesEndNear(START, inner, FIELD_ENDS, braces);
    CleanedAreTame(pieces, braces);
    SelectMembers(fields, KeepField(names));
    forall i | 0 <= i < |kept| ensures Tame(kept[i], braces) {
      assert kept[i] in kept;
    }
  }

  lemma KeptInTurn(inner: string, names: set<string>, kept: seq<string>)
    requires Quiet(Lift(START, true), inner) && kept == KeptFields(inner, names)
    ensures InTurn(kept, true)
  {
    FieldSeparatorFits(FIELD_ENDS);
    PiecesInTurn(START, true, inner, FIELD_ENDS);
    CleanedInTurn(Pieces(START, inner, FIELD_ENDS), true);
    SelectedInTurn(Split(inner, FIELD_ENDS), KeepField(names), true);
  }

  // ----- the joined fields -----

  ghost predicate NoneCloses(fields: seq<string>) {
    forall i :: 0 <= i < |fields| ==> NeverCloses(START, fields[i])
  }

  lemma NoneClosesFirst(fields: seq<string>)
    requires fields != []
    ensures NoneCloses(fields) <==> NeverCloses(START, fields[0]) && NoneCloses(fields[1..])
  {
    if NeverCloses(START, fields[0]) && NoneCloses(fields[1..]) {
      forall i | 0 <= i < |fields| ensures NeverCloses(START, fields[i]) {
        if i > 0 {
          assert fields[i] == fields[1..][i - 1];
        }
      }
    }
  }

  lemma QuietComma(s: Scan, deep: bool, field: string)
    requires Base(s) && Settles(field) && Quiet(Lift(START, deep), field)
    ensures Quiet(Lift(s, deep), field + ", ")
    ensures Run(Lift(s, deep), field + ", ") == Lift(Run(s, field + ", "), deep && NeverCloses(START, field))
  {
    FieldThenComma(s, field);
    LiftRun(s, deep, field + ", ");
    QuietAlike(s, START, deep, field);
    QuietAppend(Lift(s, deep), field, ", ");
    assert ", " == [','] + " " && " " == [' '] + "";
    PlainIsQuiet(Run(Lift(s, deep), field), ',', " ");
    PlainIsQuiet(Observe(Run(Lift(s, deep), field), ','), ' ', "");
  }

  /** Joined fields that come in turn, all but the last settled, are read to the end of the last. */
  lemma {:induction false} JoinedRun(s: Scan, deep: bool, fields: seq<string>)
    requires Base(s) && fields != [] && InTurn(fields, deep) && fields[|fields| - 1] != ""
    requires forall i :: 0 <= i < |fields| - 1 ==> Settles(fields[i])
    ensures Quiet(Lift(s, deep), Join(fields, ", "))
    ensures Run(Lift(s, deep), Join(fields, ", ")) == Lift(Run(START, fields[|fields| - 1]), deep && NoneCloses(fields))
    decreases |fields|
  {
    NoneClosesFirst(fields);
    if |fields| == 1 {
      QuietAlike(s, START, deep, fields[0]);
      LiftRun(s, deep, fields[0]);
      NeverClosesAlike(s, START, fields[0]);
      BaseRunsAlike(s, START, fields[0], {});
    } else {
      var first, rest := fields[0] + ", ", fields[1..];
      QuietComma(s, deep, fields[0]);
      FieldThenComma(s, fields[0]);
      assert forall i :: 0 <= i < |rest| ==> rest[i] == fields[i + 1];
      JoinedRun(Run(s, first), deep && NeverCloses(START, fields[0]), rest);
      QuietAppend(Lift(s, deep), first, Join(rest, ", "));
      RunAppend(Lift(s, deep), first, Join(rest, ", "));
    }
  }

  ghost predicate NoLineComment(fields: seq<string>) {
    forall i :: 0 <= i < |fields| ==> !EndsInLineComment(fields[i])
  }

  /** The last field leaves no brace open, unless some field closes one too many. */
  ghost predicate Balanced(fields: seq<string>) {
    fields == [] || Settles(fields[|fields| - 1]) || !NoneCloses(fields)
  }

  lemma JoinedFits(fields: seq<string>)
    requires InTurn(fields, true) && Joinable(fields, FIELD_ENDS) && forall i :: 0 <= i < |fields| ==> Tame(fields[i], 1)
    requires OnlyLastEndsInLineComment(fields)
    ensures Enclosed(Join(fields, ", ")) <==> NoLineComment(fields) && Balanced(fields)
  {
    if fields != [] {
      var last := Run(START, fields[|fields| - 1]);
      JoinedRun(OPENED, true, fields);
      RunValid(START, fields[|fields| - 1]);
      ShutsMeans(Lift(last, NoneCloses(fields)));
    }
  }

  lemma OnlyLastOrNone(kept: seq<string>)
    ensures NoLineComment(kept) ==> OnlyLastEndsInLineComment(kept)
  {
  }

  lemma FieldsResplit(body: string, names: set<string>, kept: seq<string>, inner: string)
    requires kept == KeptFields(body, names) && inner == Join(kept, ", ")
    ensures Split(inner, FIELD_ENDS) == kept <==> OnlyLastEndsInLineComment(kept)
    ensures OnlyLastEndsInLineComment(kept) ==> KeptFields(inner, names) == kept
  {
    FieldSeparatorFits(FIELD_ENDS);
    SelectionResplits(body, KeepField(names), FIELD_SEPARATOR, FIELD_ENDS);
  }

  /** The filtered body fits between the braces of the old one and splits into exactly the kept fields if
      and only if no kept field ends in a line comment and the last leaves no brace open. */
  lemma FilteredBodyFits(body: string, names: set<string>, kept: seq<string>, inner: string)
    requires Enclosed(body) && kept == KeptFields(body, names) && inner == Join(kept, ", ")
    ensures Enclosed(inner) && Split(inner, FIELD_ENDS) == kept <==> NoLineComment(kept) && Balanced(kept)
    ensures NoLineComment(kept) ==> KeptFields(inner, names) == kept
  {
    EnclosedUnlifted(body);
    KeptAreTame(body, names, kept, 1);
    KeptInTurn(body, names, kept);
    FieldsResplit(body, names, kept, inner);
    OnlyLastOrNone(kept);
    if OnlyLastEndsInLineComment(kept) {
      JoinedFits(kept);
    }
  }

  // ----- the marker -----

  lemma {:induction false} FindTextKept(a: string, b: string, pattern: string, i: nat, p: nat)
    requires FindText(a, pattern) == Some(i) && i + |pattern| <= p <= |a| && p <= |b| && a[..p] == b[..p]
    ensures FindText(b, pattern) == Some(i)
    decreases i
  {
    SamePrefix(a, b, pattern, p);
    if i > 0 {
      FindTextNext(a, pattern);
      assert a[1..][..p - 1] == a[..p][1..] == b[1..][..p - 1];
      FindTextKept(a[1..], b[1..], pattern, i - 1, p - 1);
      FindTextNext(b, pattern);
    }
  }

  lemma FindTextNext(text: string, pattern: string)
    requires text != "" && !(pattern <= text)
    ensures FindText(text, pattern) ==
      (if FindText(text[1..], pattern).Some? then Some(FindText(text[1..], pattern).value + 1) else None)
  {
  }

  lemma SamePrefix(a: string, b: string, pattern: string, p: nat)
    requires |pattern| <= p <= |a| && p <= |b| && a[..p] == b[..p]
    ensures pattern <= a <==> pattern <= b
  {
    assert forall k :: 0 <= k < p ==> a[k] == a[..p][k] == b[..p][k] == b[k];
  }

  lemma MarkerKept(a: string, b: string, marker: string, m: nat, p: nat)
    requires Marker(a, marker) == Some(m) && m <= p <= |a| && p <= |b| && a[..p] == b[..p]
    requires '=' !in a ==> '=' !in b
    ensures Marker(b, marker) == Some(m)
  {
    match IndexOf(a, '=')
    case Some(eq) =>
      assert b[eq] == b[..p][eq] == a[..p][eq] == '=';
      forall k | 0 <= k < eq ensures b[k] != '=' {
        assert b[k] == b[..p][k] == a[..p][k] && a[k] in a[..eq];
      }
      FirstAt(b, '=', eq);
    case None =>
      FindTextKept(a, b, marker, m - |marker|, p);
  }

  // ----- characters -----

  lemma {:induction false} PieceChars(s: Scan, text: string, delimiters: set<char>, i: nat)
    requires i < |Pieces(s, text, delimiters)|
    ensures forall c :: c in Pieces(s, text, delimiters)[i] ==> c in text
    decreases |text|
  {
    if text != "" {
      var rest := Pieces(Observe(s, text[0]), text[1..], delimiters);
      var j := if s.Cuttable() && text[0] in delimiters && i > 0 then i - 1 else if i < |rest| then i else 0;
      PieceChars(Observe(s, text[0]), text[1..], delimiters, j);
      assert text == [text[0]] + text[1..];
    }
  }

  lemma {:induction false} CleanedChars(pieces: seq<string>, c: char)
    requires forall i :: 0 <= i < |pieces| ==> c !in pieces[i]
    ensures forall i :: 0 <= i < |Cleaned(pieces)| ==> c !in Cleaned(pieces)[i]
  {
    if pieces != [] {
      var rest := pieces[1..];
      assert forall i :: 0 <= i < |rest| ==> rest[i] == pieces[i + 1];
      CleanedChars(rest, c);
      var before, after := TrimParts(pieces[0]);
      assert c !in Trim(pieces[0]);
    }
  }

  lemma {:induction false} JoinChars(parts: seq<string>, sep: string, c: char)
    requires c !in sep && forall i :: 0 <= i < |parts| ==> c !in parts[i]
    ensures c !in Join(parts, sep)
  {
    if |parts| > 1 {
      var rest := parts[1..];
      assert forall i :: 0 <= i < |rest| ==> rest[i] == parts[i + 1];
      JoinChars(rest, sep, c);
    }
  }

  lemma FilteredChars(inner: string, names: set<string>, c: char)
    requires c !in inner && c !in ", "
    ensures c !in Join(KeptFields(inner, names), ", ")
  {
    var pieces, fields, kept := Pieces(START, inner, FIELD_ENDS), Split(inner, FIELD_ENDS), KeptFields(inner, names);
    forall i | 0 <= i < |pieces| ensures c !in pieces[i] {
      PieceChars(START, inner, FIELD_ENDS, i);
    }
    CleanedChars(pieces, c);
    SelectMembers(fields, KeepField(names));
    forall i | 0 <= i < |kept| ensures c !in kept[i] {
      assert kept[i] in kept;
    }
    JoinChars(kept, ", ", c);
  }

  // ----- the whole file -----

  /** A file with a body between braces. */
  datatype TypeFile = TypeFile(before: string, inner: string, after: string) {
    function Text(): string { before + inner + after }
  }

  /** Where the braces of the body are. */
  function SpanIn(file: TypeFile): (nat, nat)
    requires file.before != ""
  {
    (|file.before| - 1, |file.before + file.inner|)
  }

  /** The body found in the file is the one between its parts. */
  predicate HasBody(file: TypeFile, marker: string) {
    && file.before != "" && file.after != "" && file.after[0] == '}'
    && BodySpan(file.Text(), marker) == Some(SpanIn(file))
  }

  lemma BehindMarker(content: string, marker: string, m: nat, behind: string, o: nat, c: nat, span: (nat, nat))
    requires Marker(content, marker) == Some(m) && behind == content[m..] && span.0 == m + o && span.1 == m + c
    ensures BodySpan(content, marker) == Some(span) <==> BraceSpan(START, behind, 0, None) == Some((o, c))
  {
  }

  lemma SpanBehindMarker(content: string, marker: string, m: nat)
    requires Marker(content, marker) == Some(m) && BodySpan(content, marker).Some?
    ensures m <= BodySpan(content, marker).value.0 < BodySpan(content, marker).value.1
  {
    BraceSpanBounds(START, content[m..], 0, None);
  }

  lemma BodyIsOpened(front: string, opening: string, inner: string, after: string, marker: string, file: TypeFile)
    requires file == TypeFile(front + opening, inner, after) && Marker(file.Text(), marker) == Some(|front|) && opening != ""
    ensures BodySpan(file.Text(), marker) == Some(SpanIn(file)) <==> Opened(opening, inner, after)
  {
    var behind, o, c := opening + inner + after, |opening| - 1, |opening + inner|;
    BehindFront(front, opening, inner, after, file.Text());
    BehindMarker(file.Text(), marker, |front|, behind, o, c, SpanIn(file));
  }

  lemma BehindFront(front: string, opening: string, inner: string, after: string, text: string)
    requires text == front + opening + inner + after
    ensures |front| <= |text| && text[|front|..] == opening + inner + after
  {
    AssociateAll(front, opening, inner, after);
  }

  /** The parts around the marker. */
  lemma SplitAtMarker(file: TypeFile, marker: string) returns (front: string, opening: string)
    requires HasBody(file, marker)
    ensures file.before == front + opening && Marker(file.Text(), marker) == Some(|front|)
    ensures Opened(opening, file.inner, file.after)
  {
    var m := Marker(file.Text(), marker).value;
    SpanBehindMarker(file.Text(), marker, m);
    front, opening := file.before[..m], file.before[m..];
    BodyIsOpened(front, opening, file.inner, file.after, marker, file);
  }

  lemma MarkerStays(front: string, opening: string, former: string, inner: string, after: string, marker: string)
    requires Marker(front + opening + former + after, marker) == Some(|front|)
    requires '=' !in former ==> '=' !in inner
    ensures Marker(front + opening + inner + after, marker) == Some(|front|)
  {
    var a, b := front + opening + former + after, front + opening + inner + after;
    assert a[..|front|] == front == b[..|front|];
    assert '=' in a <==> '=' in front || '=' in opening || '=' in former || '=' in after;
    MarkerKept(a, b, marker, |front|, |front|);
  }

  /** Whatever is put between the braces of the body, it is found there exactly when it fits. */
  lemma InnerReplaced(file: TypeFile, marker: string, inner: string, file': TypeFile)
    requires HasBody(file, marker) && file' == file.(inner := inner) && ('=' !in file.inner ==> '=' !in inner)
    ensures HasBody(file', marker) <==> Enclosed(inner)
  {
    var front, opening := SplitAtMarker(file, marker);
    SpanOfReplaced(opening, file.inner, file.after, inner);
    MarkerStays(front, opening, file.inner, inner, file.after, marker);
    BodyIsOpened(front, opening, inner, file.after, marker, file');
  }

  lemma BodyIsEnclosed(file: TypeFile, marker: string)
    requires HasBody(file, marker)
    ensures Enclosed(file.inner)
  {
    InnerReplaced(file, marker, file.inner, file);
  }

  lemma NoEqualsAdded(inner: string, names: set<string>, kept: seq<string>)
    requires kept == KeptFields(inner, names)
    ensures '=' !in inner ==> '=' !in Join(kept, ", ")
  {
    if '=' !in inner {
      FilteredChars(inner, names, '=');
    }
  }

  /** What a file becomes when its fields are filtered, before its imports are pruned. */
  function FilteredFile(file: TypeFile, names: set<string>): TypeFile {
    file.(inner := Join(KeptFields(file.inner, names), ", "))
  }

  /** In the whole file: the body is found where it was put and splits into exactly the kept fields if and
      only if no kept field ends in a line comment and the last leaves no brace open. */
  lemma KeptFieldsComeBack(file: TypeFile, marker: string, names: set<string>, kept: seq<string>, file': TypeFile)
    requires HasBody(file, marker) && kept == KeptFields(file.inner, names) && file' == FilteredFile(file, names)
    ensures HasBody(file', marker) && Split(file'.inner, FIELD_ENDS) == kept <==> NoLineComment(kept) && Balanced(kept)
    ensures NoLineComment(kept) ==> KeptFields(file'.inner, names) == kept
  {
    BodyIsEnclosed(file, marker);
    FilteredBodyFits(file.inner, names, kept, file'.inner);
    NoEqualsAdded(file.inner, names, kept);
    InnerReplaced(file, marker, file'.inner, file');
  }

  /** A body that closes only its own braces leaves none open, whichever fields are dropped. */
  lemma OwnBracesBalance(file: TypeFile, marker: string, names: set<string>, kept: seq<string>)
    requires HasBody(file, marker) && NeverCloses(START, file.inner) && kept == KeptFields(file.inner, names)
    ensures NoLineComment(kept) ==> Balanced(kept)
  {
    BodyIsEnclosed(file, marker);
    EnclosedUnlifted(file.inner);
    KeptAreTame(file.inner, names, kept, 0);
  }

  // ----- a brace left open -----

  const CLOSER := "y:[}]"
  const OPENER := "x:[{]"

  lemma CloserReads()
    ensures Part(CLOSER, FIELD_ENDS) && Settles(CLOSER) && Quiet(Lift(START, true), CLOSER) && !NeverCloses(START, CLOSER)
  {
    var y, colon := Observe(START, 'y'), Observe(Observe(START, 'y'), ':');
    var bracket := Observe(colon, '[');
    assert CLOSER[1..] == ":[}]" && ":[}]"[1..] == "[}]" && "[}]"[1..] == "}]" && "}]"[1..] == "]" && "]"[1..] == "";
    assert bracket.bracket == 1 && Unmatched(bracket, '}');
  }

  lemma OpenerReads()
    ensures Part(OPENER, FIELD_ENDS) && Near(Run(START, OPENER), 1) && !Settles(OPENER)
    ensures Quiet(Lift(START, false), OPENER) && NeverCloses(START, OPENER)
  {
    var x, colon := Observe(START, 'x'), Observe(Observe(START, 'x'), ':');
    assert OPENER[1..] == ":[{]" && ":[{]"[1..] == "[{]" && "[{]"[1..] == "{]" && "{]"[1..] == "]" && "]"[1..] == "";
  }

  lemma NameReads(c: char, rest: string)
    requires IsIdentChar(c) && rest != "" && rest[0] == ':'
    ensures PropertyName(Uncommented([c] + rest)) == Some([c])
  {
    var text := [c] + rest;
    assert TrimStart(text) == text && !("/*" <= text);
    assert text[1..] == rest && TrimStart(rest) == rest;
    assert IdentLength(rest) == 0;
    assert text[..1] == [c];
  }

  lemma BodyBehindEquals(inner: string, file: TypeFile, marker: string)
    requires file == TypeFile("={", inner, "}")
    ensures HasBody(file, marker) <==> Enclosed(inner)
  {
    var text, behind, close := file.Text(), "{" + inner + "}", 1 + |inner|;
    FirstAt(text, '=', 0);
    assert text[1..] == behind && behind[1..close] == inner;
    assert Observe(START, '{') == Deeper(OPENED);
    OpenedMeansEnclosed(behind, inner, 0, close);
    BehindMarker(text, marker, 1, behind, 0, close, SpanIn(file));
  }

  lemma FirstDropped(p: string, q: string, keep: string -> bool)
    requires !keep(p) && keep(q)
    ensures Select([p, q], keep) == [q]
  {
    assert [p, q][1..] == [q] && [q][1..] == [];
    assert Select([q], keep) == [q];
  }

  /** A field that closes one brace too many makes up for a later one that leaves a brace open. */
  lemma OutOfStep(p: string, q: string)
    requires Part(p, FIELD_ENDS) && Settles(p) && Quiet(Lift(START, true), p) && !NeverCloses(START, p)
    requires Part(q, FIELD_ENDS) && Near(Run(START, q), 1) && !Settles(q) && Quiet(Lift(START, false), q) && NeverCloses(START, q)
    ensures Enclosed(Join([p, q], ", ")) && !Enclosed(Join([q], ", ")) && Joinable([p, q], FIELD_ENDS)
    ensures NoLineComment([q]) && OnlyLastEndsInLineComment([p, q])
  {
    assert [p, q][1..] == [q] && [q][1..] == [];
    QuietDeeper(START, q);
    JoinedFits([p, q]);
    JoinedFits([q]);
    assert !NeverCloses(START, [p, q][0]);
    forall i | 0 <= i < |[p, q]| - 1 ensures !EndsInLineComment([p, q][i]) {
      assert i == 0;
    }
  }

  lemma DroppedOutOfStep(p: string, q: string, names: set<string>, file: TypeFile, marker: string)
    requires Part(p, FIELD_ENDS) && Settles(p) && Quiet(Lift(START, true), p) && !NeverCloses(START, p)
    requires Part(q, FIELD_ENDS) && Near(Run(START, q), 1) && !Settles(q) && Quiet(Lift(START, false), q) && NeverCloses(START, q)
    requires !KeepField(names)(p) && KeepField(names)(q) && file == TypeFile("={", Join([p, q], ", "), "}")
    ensures HasBody(file, marker) && KeptFields(file.inner, names) == [q] && NoLineComment([q])
    ensures !HasBody(FilteredFile(file, names), marker)
  {
    OutOfStep(p, q);
    FieldSeparatorFits(FIELD_ENDS);
    SplitUndoesJoin([p, q], FIELD_SEPARATOR, FIELD_ENDS);
    FirstDropped(p, q, KeepField(names));
    BodyBehindEquals(file.inner, file, marker);
    BodyBehindEquals(Join([q], ", "), FilteredFile(file, names), marker);
  }

  lemma NamesRead()
    ensures !KeepField({"y"})(CLOSER) && KeepField({"y"})(OPENER)
  {
    assert CLOSER == ['y'] + ":[}]" && OPENER == ['x'] + ":[{]";
    NameReads('y', ":[}]");
    NameReads('x', ":[{]");
  }

  /** The fields of a body whose braces are out of step: dropping the first leaves a brace of the second
      open, and the body is not found again. */
  lemma BraceLeftOpen(p: string, q: string, names: set<string>, file: TypeFile, marker: string)
    requires p == CLOSER && q == OPENER && names == {"y"} && file == TypeFile("={", Join([p, q], ", "), "}")
    ensures HasBody(file, marker) && KeptFields(file.inner, names) == [q] && NoLineComment([q])
    ensures !HasBody(FilteredFile(file, names), marker)
  {
    CloserReads();
    OpenerReads();
    NamesRead();
    DroppedOutOfStep(p, q, names, file, marker);
  }
}
