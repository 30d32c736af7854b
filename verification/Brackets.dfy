/** Texts with balanced brackets: a delimiter inside a pair of brackets, a string or a comment never cuts. */
module Brackets {
  import opened Text
  import opened Scanner
  import opened Splitting
  import opened Lexing

  /** A token that is no bracket, or a pair of brackets with something balanced between them. */
  datatype Item = Loose(token: Token) | Group(open: char, items: seq<Item>)

  predicate IsOpen(c: char) { c == '{' || c == '[' || c == '(' || c == '<' }

  function Closing(open: char): char {
    match open
    case '{' => '}'
    case '[' => ']'
    case '(' => ')'
    case _ => '>'
  }

  predicate IsBracket(c: char) {
    c in {'{', '}', '[', ']', '(', ')', '<', '>'}
  }

  function ItemText(item: Item): (s: string)
    ensures s != ""
  {
    match item
    case Loose(t) => TokenText(t)
    case Group(open, items) => [open] + ItemsText(items) + [Closing(open)]
  }

  function ItemsText(items: seq<Item>): string {
    if items == [] then "" else ItemText(items[0]) + ItemsText(items[1..])
  }

  predicate StartsComment(text: string) {
    text != "" && (text[0] == '/' || text[0] == '*')
  }

  ghost predicate WellItem(item: Item) {
    match item
    case Loose(t) => WellFormed(t) && (t.Code? ==> !IsBracket(t.c))
    case Group(open, items) => IsOpen(open) && WellItems(items, false)
  }

  /** `slash` says that a slash of the code stands right before the items. */
  ghost predicate WellItems(items: seq<Item>, slash: bool) {
    items == [] ||
    ((slash ==> !StartsComment(ItemText(items[0]))) && WellItem(items[0])
     && WellItems(items[1..], items[0] == Loose(Code('/'))))
  }

  /** The delimiter itself, outside all brackets. */
  predicate IsDelimiter(item: Item, delimiters: set<char>) {
    item.Loose? && item.token.Code? && item.token.c in delimiters
  }

  predicate Unbroken(items: seq<Item>, delimiters: set<char>) {
    forall i :: 0 <= i < |items| ==> !IsDelimiter(items[i], delimiters)
  }

  // ----- one token -----

  lemma {:induction false} IgnoredUncut(s: Scan, text: string, delimiters: set<char>)
    requires Ignoring(s, text)
    ensures NoCut(s, text, delimiters)
    decreases |text|
  {
    if text != "" {
      IgnoredUncut(Observe(s, text[0]), text[1..], delimiters);
    }
  }

  lemma OneUncut(s: Scan, c: char, delimiters: set<char>)
    ensures NoCut(s, [c], delimiters) <==> !(s.Cuttable() && c in delimiters)
  {
    assert [c][1..] == "";
  }

  lemma TwoUncut(s: Scan, c: char, d: char, delimiters: set<char>)
    requires c !in delimiters && d !in delimiters
    ensures NoCut(s, [c, d], delimiters)
  {
    assert [c, d][1..] == [d];
    OneUncut(Observe(s, c), d, delimiters);
  }

  lemma MaskedUncut(s: Scan, t: Token, delimiters: set<char>)
    requires s.Valid() && !s.Ignored() && WellFormed(t) && !t.Code? && (s.previous == Some('/') ==> t.Literal?) && Plains(delimiters)
    ensures NoCut(s, TokenText(t), delimiters)
  {
    var start, rest := TokenParts(s, t);
    IgnoredUncut(Run(s, start), rest, delimiters);
    if t.Literal? {
      OneUncut(s, t.quote, delimiters);
    } else {
      TwoUncut(s, '/', '/', delimiters);
      TwoUncut(s, '/', '*', delimiters);
    }
    NoCutAppend(s, start, rest, delimiters);
  }

  predicate Plains(delimiters: set<char>) {
    forall d :: d in delimiters ==> Plain(d)
  }

  lemma CodePassed(s: Scan, c: char)
    requires s.Valid() && !s.Ignored() && !IsQuote(c) && !IsBracket(c) && (s.previous == Some('/') ==> c != '/' && c != '*')
    ensures Passed(s, Observe(s, c), c == '/')
  {
  }

  lemma LooseRead(s: Scan, t: Token, delimiters: set<char>)
    requires s.Valid() && !s.Ignored() && WellItem(Loose(t)) && Plains(delimiters)
    requires s.previous == Some('/') ==> !StartsComment(TokenText(t))
    ensures Passed(s, Run(s, TokenText(t)), t == Code('/'))
    ensures (s.TopLevel() ==> !IsDelimiter(Loose(t), delimiters)) ==> NoCut(s, TokenText(t), delimiters)
  {
    match t
    case Code(c) =>
      RunOne(s, c);
      CodePassed(s, c);
      OneUncut(s, c, delimiters);
    case Literal(quote, body) =>
      LiteralPassed(s, quote, body);
      MaskedUncut(s, t, delimiters);
    case BlockComment(body) =>
      BlockPassed(s, body);
      MaskedUncut(s, t, delimiters);
    case LineComment(body) =>
      LinePassed(s, body);
      MaskedUncut(s, t, delimiters);
  }

  // ----- groups -----

  predicate Deepened(s: Scan, s': Scan, open: char) {
    && s'.brace == s.brace + (if open == '{' then 1 else 0) && s'.bracket == s.bracket + (if open == '[' then 1 else 0)
    && s'.paren == s.paren + (if open == '(' then 1 else 0) && s'.angle == s.angle + (if open == '<' then 1 else 0)
  }

  lemma OpenRead(s: Scan, open: char)
    requires s.Valid() && !s.Ignored() && IsOpen(open)
    ensures var s' := Observe(s, open); s'.Valid() && !s'.Ignored() && Deepened(s, s', open) && s'.previous == Some(open)
  {
  }

  lemma CloseRead(s: Scan, inner: Scan, open: char)
    requires inner.Valid() && !inner.Ignored() && IsOpen(open) && Deepened(s, inner, open)
    ensures Passed(s, Observe(inner, Closing(open)), false)
  {
  }

  lemma {:induction false} ItemRead(s: Scan, item: Item, delimiters: set<char>)
    requires s.Valid() && !s.Ignored() && WellItem(item) && Plains(delimiters)
    requires s.previous == Some('/') ==> !StartsComment(ItemText(item))
    ensures Passed(s, Run(s, ItemText(item)), item == Loose(Code('/')))
    ensures (s.TopLevel() ==> !IsDelimiter(item, delimiters)) ==> NoCut(s, ItemText(item), delimiters)
    decreases item, 0
  {
    match item
    case Loose(t) => LooseRead(s, t, delimiters);
    case Group(open, items) =>
      var close, inner := Closing(open), ItemsText(items);
      var s1 := Observe(s, open);
      OpenRead(s, open);
      ItemsRead(s1, items, delimiters, false);
      var s2 := Run(s1, inner);
      CloseRead(s, s2, open);
      assert [open] + inner + [close] == [open] + (inner + [close]);
      RunOne(s, open);
      OneUncut(s, open, delimiters);
      RunAppend(s, [open], inner + [close]);
      NoCutAppend(s, [open], inner + [close], delimiters);
      RunAppend(s1, inner, [close]);
      RunOne(s2, close);
      OneUncut(s2, close, delimiters);
      NoCutAppend(s1, inner, [close], delimiters);
  }

  lemma UnbrokenRest(items: seq<Item>, delimiters: set<char>)
    requires items != []
    ensures Unbroken(items, delimiters) <==> !IsDelimiter(items[0], delimiters) && Unbroken(items[1..], delimiters)
  {
    if !IsDelimiter(items[0], delimiters) && Unbroken(items[1..], delimiters) {
      forall i | 0 <= i < |items| ensures !IsDelimiter(items[i], delimiters) {
        if i > 0 {
          assert items[i] == items[1..][i - 1];
        }
      }
    }
  }

  predicate LastSlash(items: seq<Item>, slash: bool) {
    if items == [] then slash else items[|items| - 1] == Loose(Code('/'))
  }

  /** Balanced items leave the depth as it was; where something is open already nothing in them cuts, and at top
      level only a delimiter that is itself one of the items does. */
  lemma {:induction false} ItemsRead(s: Scan, items: seq<Item>, delimiters: set<char>, slash: bool)
    requires s.Valid() && !s.Ignored() && WellItems(items, slash) && Plains(delimiters) && (s.previous == Some('/') <==> slash)
    ensures Passed(s, Run(s, ItemsText(items)), LastSlash(items, slash))
    ensures (s.TopLevel() ==> Unbroken(items, delimiters)) ==> NoCut(s, ItemsText(items), delimiters)
    decreases items, 1
  {
    if items != [] {
      var first, rest := items[0], items[1..];
      ItemRead(s, first, delimiters);
      var s' := Run(s, ItemText(first));
      ItemsRead(s', rest, delimiters, first == Loose(Code('/')));
      RunAppend(s, ItemText(first), ItemsText(rest));
      NoCutAppend(s, ItemText(first), ItemsText(rest), delimiters);
      UnbrokenRest(items, delimiters);
      assert rest != [] ==> rest[|rest| - 1] == items[|items| - 1];
    }
  }

  /** Whatever balanced text stands between a pair of brackets: nothing in it cuts, and behind it the scan is back
      at top level. */
  lemma BracketedIsUncut(open: char, items: seq<Item>, delimiters: set<char>)
    requires IsOpen(open) && WellItems(items, false) && Plains(delimiters)
    ensures var text := [open] + ItemsText(items) + [Closing(open)];
      Settles(text) && NoCut(START, text, delimiters)
  {
    ItemRead(START, Group(open, items), delimiters);
  }
}
