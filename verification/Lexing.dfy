/** A specification of the scan that does not run it: texts as sequences of code characters, string literals and
    comments, and bracket depth as a count over the code
    (codex-rs/app-server-protocol/src/export.rs:895-991). */
module Lexing {
  import opened Text
  import opened Scanner
  import opened Splitting

  // ----- tokens -----

  /** What a text is made of. A block comment's body ends at the first asterisk and slash, counting the asterisk
      that opens the comment. */
  datatype Token = Code(c: char) | Literal(quote: char, body: string) | BlockComment(body: string) | LineComment(body: string)

  function TokenText(t: Token): (s: string)
    ensures s != ""
  {
    match t
    case Code(c) => [c]
    case Literal(quote, body) => [quote] + body + [quote]
    case BlockComment(body) => "/*" + body
    case LineComment(body) => "//" + body + "\n"
  }

  function TokensText(tokens: seq<Token>): string {
    if tokens == [] then "" else TokensText(tokens[..|tokens| - 1]) + TokenText(tokens[|tokens| - 1])
  }

  predicate IsQuote(c: char) { c == '"' || c == '\'' }

  /** No quote of this kind but behind a backslash, and no backslash without something behind it. */
  predicate LiteralBody(body: string, quote: char) {
    || body == ""
    || (body[0] == '\\' && |body| > 1 && LiteralBody(body[2..], quote))
    || (body[0] != '\\' && body[0] != quote && LiteralBody(body[1..], quote))
  }

  /** An asterisk and a slash next to each other, the slash at `i`. */
  predicate ClosesAt(text: string, i: nat) {
    0 < i < |text| && text[i - 1] == '*' && text[i] == '/'
  }

  /** Nothing in the text closes a block comment. */
  ghost predicate NeverClosesBlock(text: string) {
    forall i: nat :: !ClosesAt(text, i)
  }

  ghost predicate BlockBody(body: string) {
    var text := "*" + body;
    ClosesAt(text, |text| - 1) && NeverClosesBlock(text[..|text| - 1])
  }

  ghost predicate WellFormed(t: Token) {
    match t
    case Code(c) => !IsQuote(c)
    case Literal(quote, body) => IsQuote(quote) && LiteralBody(body, quote)
    case BlockComment(body) => BlockBody(body)
    case LineComment(body) => '\n' !in body
  }

  /** A slash of the code is followed by neither a slash nor an asterisk: that would start a comment. */
  predicate Follows(tokens: seq<Token>, t: Token) {
    tokens != [] && tokens[|tokens| - 1] == Code('/') ==> TokenText(t)[0] != '/' && TokenText(t)[0] != '*'
  }

  ghost predicate Lexed(tokens: seq<Token>) {
    tokens == [] ||
    (Lexed(tokens[..|tokens| - 1]) && WellFormed(tokens[|tokens| - 1]) && Follows(tokens[..|tokens| - 1], tokens[|tokens| - 1]))
  }

  /** The characters outside strings and comments. */
  function CodeOf(tokens: seq<Token>): string {
    if tokens == [] then ""
    else CodeOf(tokens[..|tokens| - 1]) + (if tokens[|tokens| - 1].Code? then [tokens[|tokens| - 1].c] else "")
  }

  // ----- depth -----

  /** Nothing is open: no part of the code up to its end opens more than it closes. */
  ghost predicate Level(code: string, open: char, close: char) {
    forall j :: 0 <= j <= |code| ==> multiset(code[j..])[open] <= multiset(code[j..])[close]
  }

  ghost predicate AllLevel(code: string) {
    Level(code, '{', '}') && Level(code, '[', ']') && Level(code, '(', ')') && Level(code, '<', '>')
  }

  /** The text ends outside strings and comments, with as many brackets of each kind closed as opened. */
  ghost predicate AtTop(text: string) {
    exists tokens :: Lexed(tokens) && TokensText(tokens) == text && AllLevel(CodeOf(tokens))
  }

  // ----- the counters -----

  function Depth(code: string, open: char, close: char): nat {
    if code == "" then 0
    else
      var before := Depth(code[..|code| - 1], open, close);
      if code[|code| - 1] == open then before + 1 else if code[|code| - 1] == close then Down(before) else before
  }

  function Excess(code: string, open: char, close: char, j: nat): int
    requires j <= |code|
  {
    multiset(code[j..])[open] as int - multiset(code[j..])[close] as int
  }

  lemma ExcessNext(code: string, open: char, close: char, j: nat, c: char)
    requires j <= |code| && open != close
    ensures Excess(code + [c], open, close, j) ==
      Excess(code, open, close, j) + (if c == open then 1 else if c == close then -1 else 0)
  {
    assert (code + [c])[j..] == code[j..] + [c];
  }

  lemma {:induction false} DepthIsLargestExcess(code: string, open: char, close: char) returns (at: nat)
    requires open != close
    ensures forall j: nat :: j <= |code| ==> Excess(code, open, close, j) <= Depth(code, open, close)
    ensures at <= |code| && Excess(code, open, close, at) == Depth(code, open, close)
  {
    if code == "" {
      at := 0;
    } else {
      var front, c := code[..|code| - 1], code[|code| - 1];
      assert code == front + [c];
      var before := DepthIsLargestExcess(front, open, close);
      forall j: nat | j <= |front| ensures Excess(code, open, close, j) <= Depth(code, open, close) {
        ExcessNext(front, open, close, j, c);
      }
      assert code[|code|..] == "";
      ExcessNext(front, open, close, before, c);
      at := if c == close && Depth(front, open, close) == 0 then |code| else before;
    }
  }

  lemma LevelIsDepthZero(code: string, open: char, close: char)
    requires open != close
    ensures Level(code, open, close) <==> Depth(code, open, close) == 0
  {
    var at := DepthIsLargestExcess(code, open, close);
    forall j | 0 <= j <= |code| ensures multiset(code[j..])[open] <= multiset(code[j..])[close] <==> Excess(code, open, close, j) <= 0 {
    }
  }

  /** When nothing is closed before it is opened, being level is having closed as many as opened. */
  lemma LevelIsEvenCount(code: string, open: char, close: char)
    requires open != close && forall i :: 0 <= i <= |code| ==> multiset(code[..i])[close] <= multiset(code[..i])[open]
    ensures Level(code, open, close) <==> multiset(code)[open] == multiset(code)[close]
  {
    forall j | 0 <= j <= |code| ensures multiset(code[..j]) + multiset(code[j..]) == multiset(code) {
      assert code == code[..j] + code[j..];
    }
    assert code[0..] == code && code[..|code|] == code;
  }

  // ----- reading tokens -----

  predicate Counts(s: Scan, code: string) {
    && s.brace == Depth(code, '{', '}') && s.bracket == Depth(code, '[', ']')
    && s.paren == Depth(code, '(', ')') && s.angle == Depth(code, '<', '>')
  }

  predicate EndsInSlash(tokens: seq<Token>) {
    tokens != [] && tokens[|tokens| - 1] == Code('/')
  }

  /** The state behind complete tokens. */
  predicate Behind(s: Scan, tokens: seq<Token>) {
    s.Valid() && !s.Ignored() && Counts(s, CodeOf(tokens)) && (s.previous == Some('/') <==> EndsInSlash(tokens))
  }

  lemma DepthNext(code: string, c: char, open: char, close: char)
    ensures Depth(code + [c], open, close) ==
      var before := Depth(code, open, close);
      if c == open then before + 1 else if c == close then Down(before) else before
  {
    assert (code + [c])[..|code|] == code;
  }

  lemma CodeCounts(s: Scan, code: string, c: char)
    requires s.Valid() && !s.Ignored() && Counts(s, code) && !IsQuote(c)
    requires s.previous == Some('/') ==> c != '/' && c != '*'
    ensures var s' := Observe(s, c); Counts(s', code + [c]) && !s'.Ignored() && s'.Valid() && s'.previous == Some(c)
  {
    DepthNext(code, c, '{', '}');
    DepthNext(code, c, '[', ']');
    DepthNext(code, c, '(', ')');
    DepthNext(code, c, '<', '>');
  }

  lemma {:induction false} LiteralRuns(s: Scan, body: string, quote: char)
    requires s.quote == Some(quote) && IsQuote(quote) && !s.escape && !s.block && !s.line && LiteralBody(body, quote)
    ensures Run(s, body) == s.(previous := Run(s, body).previous)
    decreases |body|
  {
    if body != "" {
      if body[0] == '\\' {
        var s' := Observe(Observe(s, body[0]), body[1]);
        assert body[1..][1..] == body[2..];
        LiteralRuns(s', body[2..], quote);
      } else {
        LiteralRuns(Observe(s, body[0]), body[1..], quote);
      }
    }
  }

  lemma {:induction false} LineRuns(s: Scan, body: string)
    requires s.line && '\n' !in body
    ensures Run(s, body) == s.(previous := Run(s, body).previous)
    decreases |body|
  {
    if body != "" {
      assert body[0] in body && forall c :: c in body[1..] ==> c in body;
      LineRuns(Observe(s, body[0]), body[1..]);
    }
  }

  /** Inside a block comment, behind the character `last`. */
  lemma {:induction false} BlockRuns(s: Scan, last: char, body: string)
    requires s.block && !s.line && s.previous == Some(last) && NeverClosesBlock([last] + body)
    ensures Run(s, body) == s.(previous := Some(([last] + body)[|body|]))
    decreases |body|
  {
    if body != "" {
      var text, rest := [last] + body, [body[0]] + body[1..];
      assert !ClosesAt(text, 1);
      assert rest == text[1..];
      forall i: nat ensures !ClosesAt(rest, i) {
        assert !ClosesAt(text, i + 1);
      }
      BlockRuns(Observe(s, body[0]), body[0], body[1..]);
    }
  }

  lemma TextOfNext(tokens: seq<Token>, t: Token)
    ensures TokensText(tokens + [t]) == TokensText(tokens) + TokenText(t)
    ensures CodeOf(tokens + [t]) == CodeOf(tokens) + (if t.Code? then [t.c] else "")
    ensures Lexed(tokens + [t]) <==> Lexed(tokens) && WellFormed(t) && Follows(tokens, t)
  {
    assert (tokens + [t])[..|tokens|] == tokens;
  }

  lemma RunOne(s: Scan, c: char)
    ensures Run(s, [c]) == Observe(s, c)
  {
    assert [c][1..] == "";
  }

  lemma RunTwo(s: Scan, c: char, d: char)
    ensures Run(s, [c, d]) == Observe(Observe(s, c), d)
  {
    assert [c, d][1..] == [d];
    RunOne(Observe(s, c), d);
  }

  /** The state behind something balanced: the depth is what it was. */
  predicate Passed(s: Scan, s': Scan, slash: bool) {
    s'.Valid() && !s'.Ignored() && SameDepth(s', s) && (s'.previous == Some('/') <==> slash)
  }

  lemma LiteralPassed(s: Scan, quote: char, body: string)
    requires s.Valid() && !s.Ignored() && IsQuote(quote) && LiteralBody(body, quote)
    ensures Passed(s, Run(s, TokenText(Literal(quote, body))), false)
  {
    var inside := Observe(s, quote);
    assert [quote] + body + [quote] == [quote] + (body + [quote]);
    RunAppend(s, [quote], body + [quote]);
    RunOne(s, quote);
    LiteralRuns(inside, body, quote);
    RunAppend(inside, body, [quote]);
    RunOne(Run(inside, body), quote);
  }

  lemma LinePassed(s: Scan, body: string)
    requires s.Valid() && !s.Ignored() && s.previous != Some('/') && '\n' !in body
    ensures Passed(s, Run(s, TokenText(LineComment(body))), false)
  {
    var inside := Observe(Observe(s, '/'), '/');
    assert "//" + body + "\n" == ['/', '/'] + (body + "\n");
    RunAppend(s, ['/', '/'], body + "\n");
    RunTwo(s, '/', '/');
    LineRuns(inside, body);
    RunAppend(inside, body, "\n");
    RunOne(Run(inside, body), '\n');
  }

  lemma BlockPassed(s: Scan, body: string)
    requires s.Valid() && !s.Ignored() && s.previous != Some('/') && BlockBody(body)
    ensures Passed(s, Run(s, TokenText(BlockComment(body))), false)
  {
    var inside, text := Observe(Observe(s, '/'), '*'), "*" + body;
    var front := body[..|body| - 1];
    assert body == front + ['/'] && text[..|text| - 1] == ['*'] + front && "/*" + body == ['/', '*'] + body;
    RunAppend(s, ['/', '*'], body);
    RunTwo(s, '/', '*');
    BlockRuns(inside, '*', front);
    RunAppend(inside, front, ['/']);
    RunOne(Run(inside, front), '/');
  }

  /** Every character of the text is read inside a string or a comment. */
  predicate Ignoring(s: Scan, text: string)
    decreases |text|
  {
    text == "" || (s.Ignored() && Ignoring(Observe(s, text[0]), text[1..]))
  }

  lemma {:induction false} LiteralIgnores(s: Scan, body: string, quote: char)
    requires s.quote == Some(quote) && IsQuote(quote) && !s.escape && !s.block && !s.line && LiteralBody(body, quote)
    ensures Ignoring(s, body + [quote])
    decreases |body|
  {
    var text := body + [quote];
    if body == "" {
      assert text[1..] == "";
    } else if body[0] == '\\' {
      assert text[1..][1..] == body[2..] + [quote];
      LiteralIgnores(Observe(Observe(s, body[0]), body[1]), body[2..], quote);
    } else {
      assert text[1..] == body[1..] + [quote];
      LiteralIgnores(Observe(s, body[0]), body[1..], quote);
    }
  }

  lemma {:induction false} LineIgnores(s: Scan, body: string)
    requires s.line && '\n' !in body
    ensures Ignoring(s, body + "\n")
    decreases |body|
  {
    var text := body + "\n";
    if body == "" {
      assert text[1..] == "";
    } else {
      assert text[1..] == body[1..] + "\n";
      assert body[0] in body && forall c :: c in body[1..] ==> c in body;
      LineIgnores(Observe(s, body[0]), body[1..]);
    }
  }

  lemma {:induction false} BlockIgnores(s: Scan, last: char, body: string)
    requires s.block && !s.line && s.previous == Some(last) && body != "" && NeverClosesBlock(([last] + body)[..|body|])
    ensures Ignoring(s, body)
    decreases |body|
  {
    if |body| == 1 {
      assert body[1..] == "";
    } else {
      var text := ([last] + body)[..|body|];
      assert !ClosesAt(text, 1);
      var rest := ([body[0]] + body[1..])[..|body| - 1];
      assert rest == text[1..];
      forall i: nat ensures !ClosesAt(rest, i) {
        assert !ClosesAt(text, i + 1);
      }
      BlockIgnores(Observe(s, body[0]), body[0], body[1..]);
    }
  }

  /** A literal or comment is a start of one or two characters, and a rest that is read inside it. */
  lemma TokenParts(s: Scan, t: Token) returns (start: string, rest: string)
    requires s.Valid() && !s.Ignored() && WellFormed(t) && !t.Code? && (s.previous == Some('/') ==> t.Literal?)
    ensures TokenText(t) == start + rest && Ignoring(Run(s, start), rest)
    ensures (t.Literal? && start == [t.quote]) || start == "//" || start == "/*"
  {
    match t
    case Literal(quote, body) =>
      start, rest := [quote], body + [quote];
      RunOne(s, quote);
      LiteralIgnores(Observe(s, quote), body, quote);
    case BlockComment(body) =>
      start, rest := "/*", body;
      RunTwo(s, '/', '*');
      assert "*" + body == ['*'] + body;
      BlockIgnores(Observe(Observe(s, '/'), '*'), '*', body);
    case LineComment(body) =>
      start, rest := "//", body + "\n";
      RunTwo(s, '/', '/');
      LineIgnores(Observe(Observe(s, '/'), '/'), body);
  }

  lemma TokenRead(s: Scan, tokens: seq<Token>, t: Token)
    requires Behind(s, tokens) && WellFormed(t) && Follows(tokens, t)
    ensures Behind(Run(s, TokenText(t)), tokens + [t])
  {
    var s' := Run(s, TokenText(t));
    match t
    case Code(c) =>
      TextOfNext(tokens, t);
      RunOne(s, c);
      CodeCounts(s, CodeOf(tokens), c);
    case Literal(quote, body) =>
      LiteralPassed(s, quote, body);
      PassedBehind(s, s', tokens, t);
    case BlockComment(body) =>
      BlockPassed(s, body);
      PassedBehind(s, s', tokens, t);
    case LineComment(body) =>
      LinePassed(s, body);
      PassedBehind(s, s', tokens, t);
  }

  lemma PassedBehind(s: Scan, s': Scan, tokens: seq<Token>, t: Token)
    requires Behind(s, tokens) && Passed(s, s', false) && !t.Code?
    ensures Behind(s', tokens + [t])
  {
    TextOfNext(tokens, t);
    assert CodeOf(tokens) + "" == CodeOf(tokens);
  }

  /** Complete tokens lead to a state that counts their code. */
  lemma {:induction false} TokensRead(tokens: seq<Token>)
    requires Lexed(tokens)
    ensures Behind(Run(START, TokensText(tokens)), tokens)
  {
    if tokens != [] {
      var front, last := tokens[..|tokens| - 1], tokens[|tokens| - 1];
      TokensRead(front);
      TokenRead(Run(START, TokensText(front)), front, last);
      RunAppend(START, TokensText(front), TokenText(last));
      BehindNext(tokens, front, last);
    }
  }

  lemma BehindNext(tokens: seq<Token>, front: seq<Token>, last: Token)
    requires tokens != [] && front == tokens[..|tokens| - 1] && last == tokens[|tokens| - 1]
    ensures tokens == front + [last]
  {
  }

  // ----- every text lexes -----

  /** What is read of the token the text ends in the middle of. */
  ghost predicate Tail(s: Scan, tokens: seq<Token>, tail: string) {
    if s.line then !EndsInSlash(tokens) && "//" <= tail && '\n' !in tail[2..] && s.quote.None? && !s.block
    else if s.block then
      !EndsInSlash(tokens) && "/*" <= tail && NeverClosesBlock(tail[1..]) && s.previous == Some(tail[|tail| - 1]) && s.quote.None?
    else if s.quote.Some? then
      && tail != "" && tail[0] == s.quote.value && IsQuote(tail[0])
      && (if s.escape then |tail| > 1 && tail[|tail| - 1] == '\\' && LiteralBody(tail[1..|tail| - 1], tail[0])
          else LiteralBody(tail[1..], tail[0]))
    else tail == "" && (s.previous == Some('/') <==> EndsInSlash(tokens))
  }

  ghost predicate Explains(s: Scan, text: string, tokens: seq<Token>, tail: string) {
    Lexed(tokens) && text == TokensText(tokens) + tail && s.Valid() && Counts(s, CodeOf(tokens)) && Tail(s, tokens, tail)
  }

  lemma {:induction false} LiteralBodies(a: string, b: string, quote: char)
    requires LiteralBody(a, quote) && LiteralBody(b, quote)
    ensures LiteralBody(a + b, quote)
    decreases |a|
  {
    if a == "" {
      assert a + b == b;
    } else if a[0] == '\\' {
      assert (a + b)[2..] == a[2..] + b;
      LiteralBodies(a[2..], b, quote);
    } else {
      assert (a + b)[1..] == a[1..] + b;
      LiteralBodies(a[1..], b, quote);
    }
  }

  /** A token is complete. */
  lemma Completed(s: Scan, text: string, tokens: seq<Token>, tail: string, c: char, t: Token)
    requires Lexed(tokens) && text == TokensText(tokens) + tail && Counts(s, CodeOf(tokens))
    requires WellFormed(t) && Follows(tokens, t) && !t.Code? && TokenText(t) == tail + [c]
    requires s.Valid() && !s.Ignored() && s.previous != Some('/')
    ensures Explains(s, text + [c], tokens + [t], "")
  {
    TextOfNext(tokens, t);
    assert CodeOf(tokens) + "" == CodeOf(tokens);
    assert TokensText(tokens) + (tail + [c]) == text + [c];
    assert TokensText(tokens + [t]) + "" == text + [c];
  }

  lemma CommentStarts(s: Scan, text: string, tokens: seq<Token>, c: char)
    requires Explains(s, text, tokens, "") && !s.Ignored() && s.previous == Some('/') && (c == '/' || c == '*')
    ensures Explains(Observe(s, c), text + [c], tokens[..|tokens| - 1], ['/', c])
  {
    var front, code := tokens[..|tokens| - 1], CodeOf(tokens[..|tokens| - 1]);
    assert tokens == front + [Code('/')];
    TextOfNext(front, Code('/'));
    DepthNext(code, '/', '{', '}');
    DepthNext(code, '/', '[', ']');
    DepthNext(code, '/', '(', ')');
    DepthNext(code, '/', '<', '>');
    assert text + [c] == TokensText(front) + ['/', c];
    assert ['/', c][2..] == "" && ['/', c][1..] == [c];
  }

  lemma OutsideNext(s: Scan, text: string, tokens: seq<Token>, c: char) returns (tokens': seq<Token>, tail': string)
    requires Explains(s, text, tokens, "") && !s.Ignored()
    ensures Explains(Observe(s, c), text + [c], tokens', tail')
  {
    if s.previous == Some('/') && (c == '/' || c == '*') {
      CommentStarts(s, text, tokens, c);
      tokens', tail' := tokens[..|tokens| - 1], ['/', c];
    } else if IsQuote(c) {
      tokens', tail' := tokens, [c];
      LiteralStarts(s, text, tokens, c);
    } else {
      tokens', tail' := tokens + [Code(c)], "";
      CodeFollows(s, text, tokens, c);
    }
  }

  lemma LiteralStarts(s: Scan, text: string, tokens: seq<Token>, c: char)
    requires Explains(s, text, tokens, "") && !s.Ignored() && IsQuote(c)
    ensures Explains(Observe(s, c), text + [c], tokens, [c])
  {
    assert text + [c] == TokensText(tokens) + [c] && [c][1..] == "";
  }

  lemma CodeFollows(s: Scan, text: string, tokens: seq<Token>, c: char)
    requires Explains(s, text, tokens, "") && !s.Ignored() && !IsQuote(c) && !(s.previous == Some('/') && (c == '/' || c == '*'))
    ensures Explains(Observe(s, c), text + [c], tokens + [Code(c)], "")
  {
    TextOfNext(tokens, Code(c));
    CodeCounts(s, CodeOf(tokens), c);
    assert TokensText(tokens + [Code(c)]) + "" == text + [c];
  }

  lemma LineNext(s: Scan, text: string, tokens: seq<Token>, tail: string, c: char) returns (tokens': seq<Token>, tail': string)
    requires Explains(s, text, tokens, tail) && s.line
    ensures Explains(Observe(s, c), text + [c], tokens', tail')
  {
    if c == '\n' {
      var t := LineComment(tail[2..]);
      assert tail == "//" + tail[2..];
      Completed(Observe(s, c), text, tokens, tail, c, t);
      tokens', tail' := tokens + [t], "";
    } else {
      tokens', tail' := tokens, tail + [c];
      assert (tail + [c])[2..] == tail[2..] + [c];
    }
  }

  lemma BlockNext(s: Scan, text: string, tokens: seq<Token>, tail: string, c: char) returns (tokens': seq<Token>, tail': string)
    requires Explains(s, text, tokens, tail) && s.block && !s.line
    ensures Explains(Observe(s, c), text + [c], tokens', tail')
  {
    if s.previous == Some('*') && c == '/' {
      var t := BlockComment(tail[2..] + [c]);
      BlockDone(tail, t);
      Completed(Observe(s, c), text, tokens, tail, c, t);
      tokens', tail' := tokens + [t], "";
    } else {
      tokens', tail' := tokens, tail + [c];
      BlockGoesOn(tail, c);
    }
  }

  lemma BlockDone(tail: string, t: Token)
    requires "/*" <= tail && NeverClosesBlock(tail[1..]) && tail[|tail| - 1] == '*' && t == BlockComment(tail[2..] + "/")
    ensures WellFormed(t) && TokenText(t) == tail + "/"
  {
    var inner := tail[1..];
    assert "*" + (tail[2..] + "/") == inner + "/";
    assert (inner + "/")[..|inner|] == inner && inner[|inner| - 1] == '*';
  }

  lemma BlockGoesOn(tail: string, c: char)
    requires "/*" <= tail && NeverClosesBlock(tail[1..]) && !(tail[|tail| - 1] == '*' && c == '/')
    ensures NeverClosesBlock((tail + [c])[1..])
  {
    var inner := tail[1..];
    assert (tail + [c])[1..] == inner + [c] && inner[|inner| - 1] == tail[|tail| - 1];
    forall i: nat ensures !ClosesAt(inner + [c], i) {
      assert !ClosesAt(inner, i);
    }
  }

  lemma LiteralNext(s: Scan, text: string, tokens: seq<Token>, tail: string, c: char) returns (tokens': seq<Token>, tail': string)
    requires Explains(s, text, tokens, tail) && s.quote.Some? && !s.block && !s.line
    ensures Explains(Observe(s, c), text + [c], tokens', tail')
  {
    tokens', tail' := tokens, tail + [c];
    if !s.escape && c == tail[0] {
      var t := Literal(tail[0], tail[1..]);
      assert tail == [tail[0]] + tail[1..];
      Completed(Observe(s, c), text, tokens, tail, c, t);
      tokens', tail' := tokens + [t], "";
    } else {
      LiteralGoesOn(tail, s.escape, c);
    }
  }

  lemma LiteralGoesOn(tail: string, escape: bool, c: char)
    requires tail != "" && IsQuote(tail[0]) && (!escape ==> LiteralBody(tail[1..], tail[0]) && c != tail[0])
    requires escape ==> |tail| > 1 && tail[|tail| - 1] == '\\' && LiteralBody(tail[1..|tail| - 1], tail[0])
    ensures escape || c != '\\' ==> LiteralBody((tail + [c])[1..], tail[0])
    ensures !escape && c == '\\' ==> LiteralBody((tail + [c])[1..|tail + [c]| - 1], tail[0])
  {
    var body := tail[1..];
    assert (tail + [c])[1..] == body + [c];
    if escape {
      var front := tail[1..|tail| - 1];
      assert body + [c] == front + ['\\', c] && ['\\', c][2..] == "";
      LiteralBodies(front, ['\\', c], tail[0]);
    } else if c == '\\' {
      assert (tail + [c])[1..|tail + [c]| - 1] == body;
    } else {
      assert [c][1..] == "";
      LiteralBodies(body, [c], tail[0]);
    }
  }

  lemma {:induction false} TextLexes(text: string) returns (tokens: seq<Token>, tail: string)
    ensures Explains(Run(START, text), text, tokens, tail)
  {
    if text == "" {
      tokens, tail := [], "";
    } else {
      var front, c := text[..|text| - 1], text[|text| - 1];
      assert text == front + [c];
      RunAppend(START, front, [c]);
      var s := Run(START, front);
      RunOne(s, c);
      var before, open := TextLexes(front);
      if s.line {
        tokens, tail := LineNext(s, front, before, open, c);
      } else if s.block {
        tokens, tail := BlockNext(s, front, before, open, c);
      } else if s.quote.Some? {
        tokens, tail := LiteralNext(s, front, before, open, c);
      } else {
        tokens, tail := OutsideNext(s, front, before, c);
      }
    }
  }

  // ----- the theorem -----

  lemma LevelsAreCounters(s: Scan, code: string)
    requires Counts(s, code)
    ensures s.TopLevel() <==> AllLevel(code)
  {
    LevelIsDepthZero(code, '{', '}');
    LevelIsDepthZero(code, '[', ']');
    LevelIsDepthZero(code, '(', ')');
    LevelIsDepthZero(code, '<', '>');
  }

  /** The scan stands where a delimiter cuts exactly when the text behind it is made of complete code characters,
      literals and comments, and has closed as many brackets of each kind as it opened. */
  lemma CuttableExactly(text: string)
    ensures Run(START, text).Cuttable() <==> AtTop(text)
  {
    var s := Run(START, text);
    if s.Cuttable() {
      var tokens, tail := TextLexes(text);
      assert TokensText(tokens) + "" == TokensText(tokens);
      LevelsAreCounters(s, CodeOf(tokens));
    }
    forall tokens | Lexed(tokens) && TokensText(tokens) == text && AllLevel(CodeOf(tokens)) ensures s.Cuttable() {
      TokensRead(tokens);
      LevelsAreCounters(s, CodeOf(tokens));
    }
  }

  // ----- cuts -----

  /** A delimiter outside strings and comments, with no bracket open before it. */
  ghost predicate CutHere(text: string, delimiters: set<char>, i: nat) {
    i < |text| && text[i] in delimiters && AtTop(text[..i])
  }

  /** All the places from `i` on where the text is cut, in order. */
  ghost predicate CutsFrom(text: string, delimiters: set<char>, i: nat, cuts: seq<nat>) {
    && (forall k :: 0 <= k < |cuts| ==> i <= cuts[k] && CutHere(text, delimiters, cuts[k]))
    && (forall j, k :: 0 <= j < k < |cuts| ==> cuts[j] < cuts[k])
    && (forall n: nat :: i <= n && CutHere(text, delimiters, n) ==> n in cuts)
  }

  /** The text between two cuts. */
  function PieceAt(text: string, start: nat, cuts: seq<nat>, k: nat): string
    requires k <= |cuts| && start <= |text| && forall j :: 0 <= j < |cuts| ==> start <= cuts[j] < |text|
    requires forall i, j :: 0 <= i < j < |cuts| ==> cuts[i] < cuts[j]
  {
    var from := if k == 0 then start else cuts[k - 1] + 1;
    if k == |cuts| then text[from..] else text[from..cuts[k]]
  }

  ghost predicate CutInto(text: string, start: nat, cuts: seq<nat>, pieces: seq<string>) {
    && start <= |text| && (forall j :: 0 <= j < |cuts| ==> start <= cuts[j] < |text|)
    && (forall i, j :: 0 <= i < j < |cuts| ==> cuts[i] < cuts[j])
    && |pieces| == |cuts| + 1 && forall k :: 0 <= k < |pieces| ==> pieces[k] == PieceAt(text, start, cuts, k)
  }

  lemma FirstCutAdded(text: string, start: nat, i: nat, cuts: seq<nat>, pieces: seq<string>)
    requires start <= i < |text| && CutInto(text, i + 1, cuts, pieces)
    ensures CutInto(text, start, [i] + cuts, [text[start..i]] + pieces)
  {
    var cuts', pieces' := [i] + cuts, [text[start..i]] + pieces;
    forall k | 0 <= k < |pieces'| ensures pieces'[k] == PieceAt(text, start, cuts', k) {
      if k > 0 {
        assert pieces'[k] == pieces[k - 1];
      }
    }
  }

  lemma CutsNext(text: string, delimiters: set<char>, i: nat, cuts: seq<nat>)
    requires i < |text| && CutsFrom(text, delimiters, i + 1, cuts)
    ensures CutsFrom(text, delimiters, i, if CutHere(text, delimiters, i) then [i] + cuts else cuts)
  {
    if CutHere(text, delimiters, i) {
      CutsPut(text, delimiters, i, cuts, [i] + cuts);
    }
  }

  lemma CutsPut(text: string, delimiters: set<char>, i: nat, cuts: seq<nat>, cuts': seq<nat>)
    requires i < |text| && CutsFrom(text, delimiters, i + 1, cuts) && CutHere(text, delimiters, i) && cuts' == [i] + cuts
    ensures CutsFrom(text, delimiters, i, cuts')
  {
    forall n: nat | i <= n && CutHere(text, delimiters, n) ensures n in cuts' {
      if n > i {
        assert n in cuts;
      } else {
        assert cuts'[0] == n;
      }
    }
    forall k | 0 < k < |cuts'| ensures cuts'[k] == cuts[k - 1] {
    }
  }

  lemma AheadAtEnd(text: string, delimiters: set<char>, start: nat, s: Scan)
    requires start <= |text|
    ensures CutsFrom(text, delimiters, |text|, [])
    ensures CutInto(text, start, [], Ahead(s, text, start, |text|, delimiters))
  {
    assert text[|text|..] == "" && text[start..|text|] == text[start..];
    GlueCut(text[start..], []);
    assert [""] + [] == [""];
  }

  lemma AheadNext(text: string, delimiters: set<char>, start: nat, i: nat, s: Scan, s': Scan)
    requires start <= i < |text| && s == Run(START, text[..i]) && s' == Run(START, text[..i + 1])
    ensures s' == Observe(s, text[i])
    ensures Ahead(s, text, start, i, delimiters) ==
      if CutHere(text, delimiters, i) then [text[start..i]] + Ahead(s', text, i + 1, i + 1, delimiters)
      else Ahead(s', text, start, i + 1, delimiters)
  {
    CuttableExactly(text[..i]);
    AheadStep(s, text, start, i, delimiters);
    assert text[..i + 1] == text[..i] + [text[i]];
    RunAppend(START, text[..i], [text[i]]);
    RunOne(s, text[i]);
  }

  lemma {:induction false} AheadExact(text: string, delimiters: set<char>, start: nat, i: nat) returns (cuts: seq<nat>)
    requires start <= i <= |text|
    ensures CutsFrom(text, delimiters, i, cuts)
    ensures CutInto(text, start, cuts, Ahead(Run(START, text[..i]), text, start, i, delimiters))
    decreases |text| - i
  {
    var s := Run(START, text[..i]);
    if i == |text| {
      cuts := [];
      AheadAtEnd(text, delimiters, start, s);
    } else {
      var s' := Run(START, text[..i + 1]);
      AheadNext(text, delimiters, start, i, s, s');
      if CutHere(text, delimiters, i) {
        var rest := AheadExact(text, delimiters, i + 1, i + 1);
        FirstCutAdded(text, start, i, rest, Ahead(s', text, i + 1, i + 1, delimiters));
        CutsNext(text, delimiters, i, rest);
        cuts := [i] + rest;
      } else {
        cuts := AheadExact(text, delimiters, start, i + 1);
        CutsNext(text, delimiters, i, cuts);
      }
    }
  }

  /** The split of a text is what lies between its cuts, trimmed, empty pieces dropped. */
  lemma SplitExactly(text: string, delimiters: set<char>) returns (cuts: seq<nat>, pieces: seq<string>)
    ensures CutsFrom(text, delimiters, 0, cuts) && CutInto(text, 0, cuts, pieces)
    ensures Split(text, delimiters) == Cleaned(pieces)
  {
    cuts := AheadExact(text, delimiters, 0, 0);
    pieces := Pieces(START, text, delimiters);
    assert text[..0] == "" && text[0..] == text && text[0..0] == "";
    GlueEmpty(pieces);
  }
}
