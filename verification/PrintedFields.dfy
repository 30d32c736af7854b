/** The field filter on the types the generator prints: it removes exactly the named fields, whatever brackets,
    strings and comments their types hold (codex-rs/app-server-protocol/src/export.rs:381-406, 733-748, 817-864). */
module PrintedFields {
  import opened Text
  import opened Scanner
  import opened Splitting
  import opened Lexing
  import opened Brackets
  import opened ArmParser
  import opened Nesting
  import opened RequestFilter
  import opened RefilterImports
  import opened GeneratedUnion
  import opened FieldFilter
  import opened FieldRefilter
  import opened FieldImports

  // ----- items -----

  lemma {:induction false} ItemsTextJoin(a: seq<Item>, b: seq<Item>)
    ensures ItemsText(a + b) == ItemsText(a) + ItemsText(b)
    decreases |a|
  {
    if a == [] {
      assert a + b == b;
    } else {
      assert (a + b)[1..] == a[1..] + b;
      ItemsTextJoin(a[1..], b);
      Associate(ItemText(a[0]), ItemsText(a[1..]), ItemsText(b));
    }
  }

  lemma {:induction false} WellItemsJoin(a: seq<Item>, b: seq<Item>, slash: bool)
    requires WellItems(a, slash) && WellItems(b, LastSlash(a, slash))
    ensures WellItems(a + b, slash)
    decreases |a|
  {
    if a == [] {
      assert a + b == b;
    } else {
      assert (a + b)[1..] == a[1..] + b;
      assert |a| > 1 ==> a[1..][|a| - 2] == a[|a| - 1];
      WellItemsJoin(a[1..], b, a[0] == Loose(Code('/')));
    }
  }

  /** A character of the code that means nothing to the scanner. */
  predicate Mute(c: char) {
    !IsQuote(c) && !IsBracket(c) && c != '/' && c != '*'
  }

  function Letters(s: string): seq<Item> {
    seq(|s|, i requires 0 <= i < |s| => Loose(Code(s[i])))
  }

  lemma {:induction false} LettersRead(s: string)
    requires forall i :: 0 <= i < |s| ==> Mute(s[i])
    ensures ItemsText(Letters(s)) == s && WellItems(Letters(s), false) && !LastSlash(Letters(s), false)
  {
    if s != "" {
      LettersRead(s[1..]);
      assert Letters(s)[1..] == Letters(s[1..]);
      assert s == [s[0]] + s[1..];
    }
  }

  lemma {:induction false} ItemNeverCloses(s: Scan, item: Item)
    requires s.Valid() && !s.Ignored() && WellItem(item) && (s.previous == Some('/') ==> !StartsComment(ItemText(item)))
    ensures NeverCloses(s, ItemText(item))
    decreases item, 0
  {
    match item
    case Loose(t) => TokenNeverCloses(s, t);
    case Group(open, items) =>
      var close, inner := Closing(open), ItemsText(items);
      var s1 := Observe(s, open);
      OpenRead(s, open);
      ItemsRead(s1, items, {}, false);
      ItemsNeverClose(s1, items, false);
      assert [open] + inner + [close] == [open] + (inner + [close]);
      RunOne(s, open);
      NeverClosesAppend(s, [open], inner + [close]);
      NeverClosesAppend(s1, inner, [close]);
      assert [open][1..] == "" && [close][1..] == "";
  }

  lemma {:induction false} ItemsNeverClose(s: Scan, items: seq<Item>, slash: bool)
    requires s.Valid() && !s.Ignored() && WellItems(items, slash) && (s.previous == Some('/') <==> slash)
    ensures NeverCloses(s, ItemsText(items))
    decreases items, 1
  {
    if items != [] {
      ItemNeverCloses(s, items[0]);
      ItemRead(s, items[0], {});
      ItemsNeverClose(Run(s, ItemText(items[0])), items[1..], items[0] == Loose(Code('/')));
      NeverClosesAppend(s, ItemText(items[0]), ItemsText(items[1..]));
    }
  }

  lemma {:induction false} IgnoredNeverCloses(s: Scan, text: string)
    requires Ignoring(s, text)
    ensures NeverCloses(s, text)
    decreases |text|
  {
    if text != "" {
      IgnoredNeverCloses(Observe(s, text[0]), text[1..]);
    }
  }

  lemma OneNeverCloses(s: Scan, c: char)
    ensures NeverCloses(s, [c]) <==> !Unmatched(s, c)
  {
    assert [c][1..] == "";
  }

  lemma TwoNeverClose(s: Scan, c: char, d: char)
    requires c != '}' && d != '}'
    ensures NeverCloses(s, [c, d])
  {
    assert [c, d][1..] == [d];
    OneNeverCloses(Observe(s, c), d);
  }

  lemma TokenNeverCloses(s: Scan, t: Token)
    requires s.Valid() && !s.Ignored() && WellItem(Loose(t)) && (s.previous == Some('/') ==> !StartsComment(TokenText(t)))
    ensures NeverCloses(s, TokenText(t))
  {
    if t.Code? {
      OneNeverCloses(s, t.c);
    } else {
      var start, rest := TokenParts(s, t);
      IgnoredNeverCloses(Run(s, start), rest);
      if t.Literal? {
        OneNeverCloses(s, t.quote);
      } else {
        TwoNeverClose(s, '/', '/');
        TwoNeverClose(s, '/', '*');
      }
      NeverClosesAppend(s, start, rest);
    }
  }

  // ----- fields -----

  /** A field as the generator prints it: comments, a name that may be quoted or optional, and a type. */
  datatype FieldDecl = FieldDecl(comments: seq<string>, quoted: bool, name: string, optional: bool, typ: seq<Item>)

  /** The text between the opening and the closing of a block comment. */
  ghost predicate CommentText(b: string) {
    NeverClosesBlock("*" + b + "*")
  }

  predicate Identifier(name: string) {
    name != "" && forall i :: 0 <= i < |name| ==> IsIdentChar(name[i])
  }

  ghost predicate Printable(f: FieldDecl) {
    && (forall i :: 0 <= i < |f.comments| ==> CommentText(f.comments[i]))
    && (if f.quoted then Unquoted(f.name) && !f.optional else Identifier(f.name))
    && WellItems(f.typ, false) && Unbroken(f.typ, FIELD_ENDS)
    && ItemsText(f.typ) != "" && Trimmed(ItemsText(f.typ))
  }

  function OneComment(b: string): seq<Item> {
    [Loose(BlockComment(b + "*/")), Loose(Code(' '))]
  }

  function CommentItems(comments: seq<string>): seq<Item> {
    if comments == [] then [] else OneComment(comments[0]) + CommentItems(comments[1..])
  }

  function NameItems(f: FieldDecl): seq<Item> {
    if f.quoted then [Loose(Literal('"', f.name))] else Letters(f.name + (if f.optional then "?" else ""))
  }

  function FieldItems(f: FieldDecl): seq<Item> {
    CommentItems(f.comments) + (NameItems(f) + (Letters(": ") + f.typ))
  }

  function FieldText(f: FieldDecl): string {
    ItemsText(FieldItems(f))
  }

  /** The field behind its comments. */
  function DeclText(f: FieldDecl): string {
    (if f.quoted then "\"" + f.name + "\"" else f.name + (if f.optional then "?" else "")) + (": " + ItemsText(f.typ))
  }

  function CommentsText(comments: seq<string>): string {
    if comments == [] then "" else "/*" + comments[0] + "*/ " + CommentsText(comments[1..])
  }

  lemma CommentIsBlock(b: string)
    requires CommentText(b)
    ensures BlockBody(b + "*/")
  {
    var text := "*" + (b + "*/");
    assert text[..|text| - 1] == "*" + b + "*";
  }

  lemma {:induction false} CommentItemsRead(comments: seq<string>)
    requires forall i :: 0 <= i < |comments| ==> CommentText(comments[i])
    ensures ItemsText(CommentItems(comments)) == CommentsText(comments) && WellItems(CommentItems(comments), false)
    ensures !LastSlash(CommentItems(comments), false) && Unbroken(CommentItems(comments), FIELD_ENDS)
    decreases |comments|
  {
    if comments != [] {
      var pair, rest := OneComment(comments[0]), CommentItems(comments[1..]);
      OneCommentReads(comments[0]);
      CommentItemsRead(comments[1..]);
      ItemsTextJoin(pair, rest);
      WellItemsJoin(pair, rest, false);
      UnbrokenJoin(pair, rest, FIELD_ENDS);
      assert rest != [] ==> (pair + rest)[|pair + rest| - 1] == rest[|rest| - 1];
    }
  }

  lemma OneCommentReads(b: string)
    requires CommentText(b)
    ensures ItemsText(OneComment(b)) == "/*" + b + "*/ " && WellItems(OneComment(b), false)
    ensures !LastSlash(OneComment(b), false) && Unbroken(OneComment(b), FIELD_ENDS)
  {
    var first, blank := Loose(BlockComment(b + "*/")), Loose(Code(' '));
    CommentIsBlock(b);
    BlankReads(blank);
    TwoItems(first, blank);
    assert WellItem(first);
  }

  lemma BlankReads(blank: Item)
    requires blank == Loose(Code(' '))
    ensures ItemsText([blank]) == " " && WellItems([blank], false)
  {
    assert [blank][1..] == [];
    assert ItemText(blank) == " ";
  }

  lemma TwoItems(a: Item, b: Item)
    ensures ItemsText([a, b]) == ItemText(a) + ItemsText([b])
    ensures WellItem(a) && WellItems([b], a == Loose(Code('/'))) ==> WellItems([a, b], false)
  {
    assert [a, b][1..] == [b];
  }

  lemma LettersUnbroken(s: string)
    requires ',' !in s && ';' !in s
    ensures Unbroken(Letters(s), FIELD_ENDS)
  {
  }

  lemma {:induction false} PlainLiteral(name: string)
    requires Unquoted(name)
    ensures LiteralBody(name, '"')
  {
    if name != "" {
      assert name[0] in name && forall c :: c in name[1..] ==> c in name;
      PlainLiteral(name[1..]);
    }
  }

  lemma IdentIsMute(c: char)
    requires IsIdentChar(c) || c == '?' || c == ':' || c == ' '
    ensures Mute(c) && c != ',' && c != ';'
  {
  }

  lemma OneItem(a: Item)
    ensures ItemsText([a]) == ItemText(a) && (WellItem(a) ==> WellItems([a], false))
  {
    assert [a][1..] == [];
    assert ItemText(a) + "" == ItemText(a);
  }

  lemma QuotedReads(name: string, items: seq<Item>)
    requires LiteralBody(name, '"') && items == [Loose(Literal('"', name))]
    ensures ItemsText(items) == "\"" + name + "\""
    ensures WellItems(items, false) && !LastSlash(items, false) && Unbroken(items, FIELD_ENDS)
  {
    OneItem(items[0]);
    assert ItemText(items[0]) == ['"'] + name + ['"'];
  }

  lemma NameItemsRead(f: FieldDecl)
    requires Printable(f)
    ensures ItemsText(NameItems(f)) == if f.quoted then "\"" + f.name + "\"" else f.name + (if f.optional then "?" else "")
    ensures WellItems(NameItems(f), false) && !LastSlash(NameItems(f), false) && Unbroken(NameItems(f), FIELD_ENDS)
  {
    if f.quoted {
      PlainLiteral(f.name);
      QuotedReads(f.name, NameItems(f));
    } else {
      var text := f.name + (if f.optional then "?" else "");
      forall i | 0 <= i < |text| ensures Mute(text[i]) && text[i] != ',' && text[i] != ';' {
        IdentIsMute(text[i]);
      }
      LettersRead(text);
      LettersUnbroken(text);
    }
  }

  lemma UnbrokenJoin(a: seq<Item>, b: seq<Item>, delimiters: set<char>)
    requires Unbroken(a, delimiters) && Unbroken(b, delimiters)
    ensures Unbroken(a + b, delimiters)
  {
  }

  lemma ColonRead()
    ensures ItemsText(Letters(": ")) == ": " && WellItems(Letters(": "), false) && !LastSlash(Letters(": "), false)
    ensures Unbroken(Letters(": "), FIELD_ENDS)
  {
    LettersRead(": ");
    LettersUnbroken(": ");
  }

  lemma FieldItemsRead(f: FieldDecl)
    requires Printable(f)
    ensures FieldText(f) == CommentsText(f.comments) + DeclText(f)
    ensures WellItems(FieldItems(f), false) && Unbroken(FieldItems(f), FIELD_ENDS)
  {
    var comments, name, colon := CommentItems(f.comments), NameItems(f), Letters(": ");
    CommentItemsRead(f.comments);
    NameItemsRead(f);
    ColonRead();
    ItemsTextJoin(colon, f.typ);
    WellItemsJoin(colon, f.typ, false);
    UnbrokenJoin(colon, f.typ, FIELD_ENDS);
    ItemsTextJoin(name, colon + f.typ);
    WellItemsJoin(name, colon + f.typ, false);
    UnbrokenJoin(name, colon + f.typ, FIELD_ENDS);
    ItemsTextJoin(comments, name + (colon + f.typ));
    WellItemsJoin(comments, name + (colon + f.typ), false);
    UnbrokenJoin(comments, name + (colon + f.typ), FIELD_ENDS);
  }

  lemma DeclStarts(f: FieldDecl)
    requires Printable(f)
    ensures DeclText(f) != "" && !IsWhitespace(DeclText(f)[0]) && DeclText(f)[0] != '/'
    ensures !IsWhitespace(DeclText(f)[|DeclText(f)| - 1])
  {
    var typ := ItemsText(f.typ);
    assert DeclText(f)[|DeclText(f)| - 1] == typ[|typ| - 1];
  }

  /** A printed field is a part of its own. */
  lemma FieldIsPart(f: FieldDecl)
    requires Printable(f)
    ensures Part(FieldText(f), FIELD_ENDS) && Settles(FieldText(f)) && NeverCloses(START, FieldText(f))
  {
    FieldItemsRead(f);
    FieldSeparatorFits(FIELD_ENDS);
    ItemsRead(START, FieldItems(f), FIELD_ENDS, false);
    ItemsNeverClose(START, FieldItems(f), false);
    DeclStarts(f);
    var text := FieldText(f);
    assert text[|text| - 1] == DeclText(f)[|DeclText(f)| - 1];
    if f.comments != [] {
      assert text[0] == '/';
    } else {
      assert text == DeclText(f);
    }
    EndsWithoutBlanks(text);
  }

  // ----- the name of a field -----

  lemma {:induction false} CloseFound(b: string, rest: string)
    requires NeverClosesBlock(b + "*")
    ensures FindText(b + "*/" + rest, "*/") == Some(|b|)
    decreases |b|
  {
    var text := b + "*/" + rest;
    if b == "" {
      assert "*/" <= text;
    } else {
      assert !ClosesAt(b + "*", 1);
      assert text[0] == b[0] && text[1] == (b + "*")[1];
      assert text[1..] == b[1..] + "*/" + rest;
      forall i: nat ensures !ClosesAt(b[1..] + "*", i) {
        assert !ClosesAt(b + "*", i + 1);
      }
      CloseFound(b[1..], rest);
      FindTextNext(text, "*/");
    }
  }

  lemma OneCommentOff(b: string, rest: string)
    requires CommentText(b)
    ensures Uncommented("/*" + b + "*/ " + rest) == Uncommented(rest)
  {
    var text := "/*" + b + "*/ " + rest;
    assert TrimStart(text) == text;
    assert text[2..] == b + "*/" + (" " + rest);
    forall i: nat ensures !ClosesAt(b + "*", i) {
      assert !ClosesAt("*" + b + "*", i + 1);
    }
    CloseFound(b, " " + rest);
    assert text[2..][|b| + 2..] == " " + rest;
    OneBlankOff(rest);
  }

  lemma OneBlankOff(rest: string)
    ensures TrimStart(" " + rest) == TrimStart(rest) && Uncommented(" " + rest) == Uncommented(rest)
  {
    assert (" " + rest)[1..] == rest;
    assert TrimStart(" " + rest) == TrimStart(rest);
  }

  lemma {:induction false} CommentsOff(comments: seq<string>, rest: string)
    requires forall i :: 0 <= i < |comments| ==> CommentText(comments[i])
    ensures Uncommented(CommentsText(comments) + rest) == Uncommented(rest)
    decreases |comments|
  {
    if comments == [] {
      assert CommentsText(comments) + rest == rest;
    } else {
      var tail := CommentsText(comments[1..]) + rest;
      assert CommentsText(comments) + rest == "/*" + comments[0] + "*/ " + tail;
      OneCommentOff(comments[0], tail);
      CommentsOff(comments[1..], rest);
    }
  }

  lemma {:induction false} IdentReads(name: string, rest: string)
    requires (forall i :: 0 <= i < |name| ==> IsIdentChar(name[i])) && (rest == "" || !IsIdentChar(rest[0]))
    ensures IdentLength(name + rest) == |name|
  {
    if name == "" {
      assert name + rest == rest;
    } else {
      assert (name + rest)[1..] == name[1..] + rest;
      IdentReads(name[1..], rest);
    }
  }

  lemma PlainNameReads(name: string, optional: bool, rest: string)
    requires Identifier(name)
    ensures PropertyName(name + (if optional then "?" else "") + (": " + rest)) == Some(name)
  {
    var tail := (if optional then "?" else "") + (": " + rest);
    var text := name + tail;
    assert name + (if optional then "?" else "") + (": " + rest) == text;
    assert TrimStart(text) == text && text[0] == name[0];
    IdentReads(name, tail);
    assert text[|name|..] == tail && TrimStart(tail) == tail && text[..|name|] == name;
    if optional {
      assert tail[1..] == ": " + rest && TrimStart(": " + rest) == ": " + rest;
    }
  }

  lemma QuotedNameReads(name: string, rest: string)
    requires Unquoted(name)
    ensures PropertyName("\"" + name + "\"" + (": " + rest)) == Some(name)
  {
    var text := "\"" + name + "\"" + (": " + rest);
    LiteralReads(name, ": " + rest);
    assert TrimStart(text) == text && text[|name| + 2..] == ": " + rest;
    assert TrimStart(": " + rest) == ": " + rest;
  }

  /** The name the filter reads off a printed field is the one printed. */
  lemma FieldNameReads(f: FieldDecl)
    requires Printable(f)
    ensures PropertyName(Uncommented(FieldText(f))) == Some(f.name)
  {
    FieldItemsRead(f);
    CommentsOff(f.comments, DeclText(f));
    DeclStarts(f);
    var text := DeclText(f);
    assert TrimStart(text) == text && !("/*" <= text);
    if f.quoted {
      QuotedNameReads(f.name, ItemsText(f.typ));
    } else {
      PlainNameReads(f.name, f.optional, ItemsText(f.typ));
    }
  }

  // ----- the fields of a type -----

  function FieldTexts(fields: seq<FieldDecl>): seq<string> {
    if fields == [] then [] else [FieldText(fields[0])] + FieldTexts(fields[1..])
  }

  /** The fields that are not named, in order. */
  function Unnamed(fields: seq<FieldDecl>, names: set<string>): seq<FieldDecl> {
    if fields == [] then []
    else (if fields[0].name in names then [] else [fields[0]]) + Unnamed(fields[1..], names)
  }

  lemma FieldTextsFirst(f: FieldDecl, rest: seq<FieldDecl>)
    ensures FieldTexts([f] + rest) == [FieldText(f)] + FieldTexts(rest) && [] + rest == rest
  {
    FirstAndRest(f, rest);
  }

  lemma FirstAndRest<T>(first: T, rest: seq<T>)
    ensures ([first] + rest)[0] == first && ([first] + rest)[1..] == rest && [] + rest == rest
  {
  }

  lemma FieldIsKept(f: FieldDecl, names: set<string>)
    requires Printable(f)
    ensures KeepField(names)(FieldText(f)) <==> f.name !in names
  {
    FieldNameReads(f);
  }

  lemma {:induction false} SelectUnnamed(fields: seq<FieldDecl>, names: set<string>, keep: string -> bool)
    requires forall i :: 0 <= i < |fields| ==> (keep(FieldText(fields[i])) <==> fields[i].name !in names)
    ensures Select(FieldTexts(fields), keep) == FieldTexts(Unnamed(fields, names))
    decreases |fields|
  {
    if fields != [] {
      TextsFirst(fields, FieldTexts(fields), FieldTexts(fields)[1..]);
      SelectUnnamed(fields[1..], names, keep);
      FieldTextsFirst(fields[0], Unnamed(fields[1..], names));
    }
  }

  lemma {:induction false} PrintedSplit(s: Scan, fields: seq<FieldDecl>)
    requires Base(s) && forall i :: 0 <= i < |fields| ==> Printable(fields[i])
    ensures Cleaned(Pieces(s, PrintFields(FieldTexts(fields)), FIELD_ENDS)) == FieldTexts(fields)
    decreases |fields|
  {
    var texts := FieldTexts(fields);
    if fields == [] {
      CleanedFirst("", []);
      assert [""] + [] == [""];
    } else {
      PrintedSplit(START, fields[1..]);
      TextsFirst(fields, texts, texts[1..]);
      FieldIsPart(fields[0]);
      FirstPrinted(s, texts, texts[1..], texts[0]);
    }
  }

  lemma TextsFirst(fields: seq<FieldDecl>, texts: seq<string>, rest: seq<string>)
    requires fields != [] && texts == FieldTexts(fields) && rest == texts[1..]
    ensures rest == FieldTexts(fields[1..]) && [texts[0]] + rest == texts && texts[0] == FieldText(fields[0])
  {
    FirstAndRest(FieldText(fields[0]), FieldTexts(fields[1..]));
  }

  lemma PrintFirst(texts: seq<string>, rest: seq<string>, p: string, behind: string)
    requires texts != [] && rest == texts[1..] && p == texts[0] && behind == PrintFields(rest)
    ensures PrintFields(texts) == p + FIELD_SEPARATOR.Text() + behind
  {
  }

  lemma FirstCut(s: Scan, texts: seq<string>, p: string, behind: string)
    requires Base(s) && Part(p, FIELD_ENDS) && Settles(p) && PrintFields(texts) == p + FIELD_SEPARATOR.Text() + behind
    ensures Cleaned(Pieces(s, PrintFields(texts), FIELD_ENDS)) == [p] + Cleaned(Pieces(START, behind, FIELD_ENDS))
  {
    FieldSeparatorFits(FIELD_ENDS);
    SettledPartIsCut(s, p, FIELD_SEPARATOR, behind, FIELD_ENDS);
  }

  lemma FirstPrinted(s: Scan, texts: seq<string>, rest: seq<string>, p: string)
    requires Base(s) && texts != [] && rest == texts[1..] && p == texts[0] && Part(p, FIELD_ENDS) && Settles(p)
    ensures Cleaned(Pieces(s, PrintFields(texts), FIELD_ENDS)) == [p] + Cleaned(Pieces(START, PrintFields(rest), FIELD_ENDS))
  {
    PrintFirst(texts, rest, p, PrintFields(rest));
    FirstCut(s, texts, p, PrintFields(rest));
  }

  lemma {:induction false} PrintedRun(s: Scan, fields: seq<FieldDecl>)
    requires Base(s) && forall i :: 0 <= i < |fields| ==> Printable(fields[i])
    ensures NeverCloses(s, PrintFields(FieldTexts(fields))) && Base(Run(s, PrintFields(FieldTexts(fields))))
    decreases |fields|
  {
    if fields != [] {
      var texts := FieldTexts(fields);
      var first, rest := texts[0] + ", ", PrintFields(texts[1..]);
      FieldIsPart(fields[0]);
      TextsFirst(fields, texts, texts[1..]);
      FieldThenComma(s, texts[0]);
      PrintedRun(Run(s, first), fields[1..]);
      NeverClosesAppend(s, first, rest);
      RunAppend(s, first, rest);
    }
  }

  /** The text between the braces of a printed type. */
  function PrintedBody(fields: seq<FieldDecl>): string {
    " " + PrintFields(FieldTexts(fields))
  }

  lemma PrintedBodyReads(fields: seq<FieldDecl>, names: set<string>)
    requires forall i :: 0 <= i < |fields| ==> Printable(fields[i])
    ensures Enclosed(PrintedBody(fields)) && KeptFields(PrintedBody(fields), names) == FieldTexts(Unnamed(fields, names))
  {
    var body, rest := PrintedBody(fields), PrintFields(FieldTexts(fields));
    FieldSeparatorFits(FIELD_ENDS);
    BlankTail(START, " ", rest, FIELD_ENDS);
    PrintedSplit(START, fields);
    forall i | 0 <= i < |fields| ensures KeepField(names)(FieldText(fields[i])) <==> fields[i].name !in names {
      FieldIsKept(fields[i], names);
    }
    SelectUnnamed(fields, names, KeepField(names));
    PlainStep(OPENED, ' ');
    PrintedRun(Observe(OPENED, ' '), fields);
    assert body[1..] == rest;
    QuietInside(OPENED, body);
    LiftRun(OPENED, true, body);
    RunValid(OPENED, body);
    ShutsMeans(Deeper(Run(OPENED, body)));
  }

  // ----- the file of a type -----

  lemma MuteStep(s: Scan, c: char)
    requires Base(s) && Mute(c)
    ensures Base(Observe(s, c))
  {
  }

  lemma {:induction false} LeadSkipped(s: Scan, text: string, i: nat, end: nat)
    requires Base(s) && i <= end <= |text| && forall k :: i <= k < end ==> Mute(text[k])
    ensures Base(Run(s, text[i..end])) && BraceSpan(s, text, i, None) == BraceSpan(Run(s, text[i..end]), text, end, None)
    decreases end - i
  {
    if i < end {
      assert text[i..end][1..] == text[i + 1..end];
      MuteStep(s, text[i]);
      LeadSkipped(Observe(s, text[i]), text, i + 1, end);
    }
  }

  /** Behind letters and blanks the first brace opens the body. */
  lemma OpenedBehind(lead: string, inner: string, after: string)
    requires (forall k :: 0 <= k < |lead| ==> Mute(lead[k])) && after != "" && after[0] == '}'
    ensures Opened(lead + "{", inner, after) <==> Enclosed(inner)
  {
    var opening := lead + "{";
    var text, o, close := opening + inner + after, |lead|, |opening + inner|;
    assert text[..o] == lead && text[o] == '{' && text[o + 1..close] == inner && text[close] == '}';
    LeadSkipped(START, text, 0, o);
    var s := Run(START, text[0..o]);
    assert Observe(s, '{') == Deeper(OPENED);
    OpenedMeansEnclosed(text, inner, o, close);
  }

  lemma MuteIdentifier(name: string, before: string, after: string)
    requires Identifier(name) && (forall k :: 0 <= k < |before| ==> Mute(before[k])) && (forall k :: 0 <= k < |after| ==> Mute(after[k]))
    ensures forall k :: 0 <= k < |before + name + after| ==> Mute((before + name + after)[k])
  {
    forall k | 0 <= k < |name| ensures Mute(name[k]) {
      IdentIsMute(name[k]);
    }
  }

  /** `export type <name> = {`, the fields and `}` with whatever follows. */
  function AliasFile(name: string, fields: seq<FieldDecl>, rest: string): TypeFile {
    TypeFile("export type " + name + " = {", PrintedBody(fields), "}" + rest)
  }

  /** `export interface <name> {`, the fields and `}` with whatever follows. */
  function InterfaceFile(name: string, fields: seq<FieldDecl>, rest: string): TypeFile {
    TypeFile("export interface " + name + " {", PrintedBody(fields), "}" + rest)
  }

  lemma NoEqualsInName(name: string)
    requires Identifier(name)
    ensures '=' !in "export type " + name + " "
  {
    var text := "export type " + name + " ";
    forall k | 0 <= k < |text| ensures text[k] != '=' {
      if 12 <= k < 12 + |name| {
        assert text[k] == name[k - 12];
      }
    }
  }

  lemma AliasHasBody(name: string, fields: seq<FieldDecl>, rest: string, file: TypeFile, marker: string)
    requires Identifier(name) && file == AliasFile(name, fields, rest) && Enclosed(file.inner)
    ensures HasBody(file, marker)
  {
    var lead := "export type " + name + " ";
    var front, opening := lead + "=", " {";
    assert file.before == front + opening;
    NoEqualsInName(name);
    assert file.Text()[..|lead|] == lead;
    IndexOfUnique(file.Text(), '=', |lead|);
    assert Mute(' ') && opening == " " + "{";
    OpenedBehind(" ", file.inner, file.after);
    BodyIsOpened(front, opening, file.inner, file.after, marker, file);
  }

  lemma InterfaceHasBody(name: string, fields: seq<FieldDecl>, rest: string, file: TypeFile, marker: string)
    requires Identifier(name) && file == InterfaceFile(name, fields, rest) && Enclosed(file.inner)
    requires '=' !in file.Text() && marker == "export interface"
    ensures HasBody(file, marker)
  {
    var lead := " " + name + " ";
    assert file.before == marker + (lead + "{");
    assert marker <= file.Text();
    assert FindText(file.Text(), marker) == Some(0);
    assert Mute(' ');
    MuteIdentifier(name, " ", " ");
    OpenedBehind(lead, file.inner, file.after);
    BodyIsOpened(marker, lead + "{", file.inner, file.after, marker, file);
  }

  /** Filtering a printed type, alias or interface, removes exactly the named fields, and the imports above that
      what is left does not use. */
  lemma PrintedTypeFiltered(lines: seq<string>, name: string, fields: seq<FieldDecl>, rest: string, names: set<string>,
    file: TypeFile, file': TypeFile)
    requires Identifier(name) && forall i :: 0 <= i < |fields| ==> Printable(fields[i])
    requires file == AliasFile(name, fields, rest) || (file == InterfaceFile(name, fields, rest) && '=' !in file.Text())
    requires file' == file.(inner := Join(FieldTexts(Unnamed(fields, names)), ", "))
    requires Above(lines, INTERFACE) && '\r' !in file'.Text() && NoImports(file'.Text())
    ensures FilterFields(Unlines(lines) + file.Text(), names) == Unlines(Select(lines, KeepLine(ScopeOf(file')))) + file'.Text()
  {
    PrintedBodyReads(fields, names);
    if file == AliasFile(name, fields, rest) {
      AliasHasBody(name, fields, rest, file, INTERFACE);
    } else {
      InterfaceHasBody(name, fields, rest, file, INTERFACE);
    }
    MarkerIsPlain();
    InnerOf(names, file.inner, FieldTexts(Unnamed(fields, names)));
    OnePass(lines, file, INTERFACE, FilteredInner(names), file');
  }
}
