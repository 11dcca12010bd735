/**
  The comment stripper of the separation scans: a four-state lexer over source text.
  `StripComments` is the code's nested loops; `Lex` cuts the same text into tokens, and the
  properties are about the tokens.
 */
module SourceScan {

  datatype Token =
    | Code(c: char)
    | Literal(text: string)
    | LineComment(text: string)
    | BlockComment(text: string)
  {
    function Source(): string {
      match this
      case Code(c) => [c]
      case Literal(text) => text
      case LineComment(text) => text
      case BlockComment(text) => text
    }

    predicate Comment() {
      LineComment? || BlockComment?
    }

    /** A comment becomes one space, anything else stays what it was. */
    function Stripped(): Token {
      if Comment() then Code(' ') else this
    }
  }

  predicate Quote(c: char) {
    c == '"' || c == '\'' || c == '`'
  }

  lemma Quotes(c: char)
    ensures Quote(c) <==> c in "\"'`"
  {
    var all := "\"'`";
    assert all[0] == '"' && all[1] == '\'' && all[2] == '`';
  }

  /** Where the line comment running at i ends: at the newline, which it does not contain. */
  function LineEnd(s: string, i: nat): (n: nat)
    requires i <= |s|
    ensures i <= n <= |s|
    decreases |s| - i
  {
    if i == |s| || s[i] == '\n' then i else LineEnd(s, i + 1)
  }

  /** Where the closing delimiter of the block comment running at i starts, or the end of the text. */
  function BlockEnd(s: string, i: nat): (n: nat)
    requires i <= |s|
    ensures i <= n <= |s|
    decreases |s| - i
  {
    if i == |s| || (s[i] == '*' && i + 1 < |s| && s[i + 1] == '/') then i else BlockEnd(s, i + 1)
  }

  /** Where the literal running at i ends, after its closing quote; an escape at the end overshoots. */
  function LiteralEnd(s: string, i: nat, quote: char): (n: nat)
    ensures i <= n && (i <= |s| ==> n <= |s| + 1)
    decreases |s| - i
  {
    if i >= |s| then i
    else if s[i] == '\\' then LiteralEnd(s, i + 2, quote)
    else if s[i] == quote then i + 1
    else LiteralEnd(s, i + 1, quote)
  }

  function Min(a: nat, b: nat): nat {
    if a < b then a else b
  }

  predicate StartsLine(s: string) {
    |s| >= 2 && s[0] == '/' && s[1] == '/'
  }

  predicate StartsBlock(s: string) {
    |s| >= 2 && s[0] == '/' && s[1] == '*'
  }

  /** The first token of a non-empty text. */
  function First(s: string): (t: Token)
    requires s != []
    ensures 0 < |t.Source()| <= |s| && t.Source() == s[..|t.Source()|]
  {
    assert StartsLine(s) ==> LineEnd(s, 0) > 0;
    if StartsLine(s) then LineComment(s[..LineEnd(s, 0)])
    else if StartsBlock(s) then BlockComment(s[..Min(|s|, BlockEnd(s, 2) + 2)])
    else if Quote(s[0]) then Literal(s[..Min(|s|, LiteralEnd(s, 1, s[0]))])
    else Code(s[0])
  }

  function Lex(s: string): (ts: seq<Token>)
    decreases |s|
  {
    if s == [] then [] else [First(s)] + Lex(s[|First(s).Source()|..])
  }

  function Sources(ts: seq<Token>): string {
    if ts == [] then [] else ts[0].Source() + Sources(ts[1..])
  }

  function StrippedAll(ts: seq<Token>): seq<Token> {
    seq(|ts|, i requires 0 <= i < |ts| => ts[i].Stripped())
  }

  /** The text without comments. */
  function Strip(s: string): string {
    Sources(StrippedAll(Lex(s)))
  }

  lemma SourcesCons(t: Token, ts: seq<Token>)
    ensures Sources([t] + ts) == t.Source() + Sources(ts)
  {
    assert ([t] + ts)[1..] == ts;
  }

  lemma LexStep(s: string)
    requires s != []
    ensures Lex(s) == [First(s)] + Lex(s[|First(s).Source()|..])
    ensures s == First(s).Source() + s[|First(s).Source()|..]
  {
    var n := |First(s).Source()|;
    assert s == s[..n] + s[n..];
  }

  /** Lexing loses nothing. */
  lemma {:induction false} LexLossless(s: string)
    ensures Sources(Lex(s)) == s
    decreases |s|
  {
    if s != [] {
      LexStep(s);
      var rest := s[|First(s).Source()|..];
      SourcesCons(First(s), Lex(rest));
      LexLossless(rest);
    }
  }

  // ---------------------------------------------------------------- the code's loops

  lemma StrippedCons(t: Token, ts: seq<Token>)
    ensures StrippedAll([t] + ts) == [t.Stripped()] + StrippedAll(ts)
  {
  }

  lemma StripStep(s: string)
    requires s != []
    ensures Strip(s) == First(s).Stripped().Source() + Strip(s[|First(s).Source()|..])
  {
    LexStep(s);
    var rest := Lex(s[|First(s).Source()|..]);
    StrippedCons(First(s), rest);
    SourcesCons(First(s).Stripped(), StrippedAll(rest));
  }

  lemma StripFrom(source: string, start: nat, end: nat)
    requires start < |source| && end == start + |First(source[start..]).Source()|
    ensures Strip(source[start..]) == First(source[start..]).Stripped().Source() + Strip(source[end..])
  {
    StripStep(source[start..]);
    assert source[start..][end - start..] == source[end..];
  }

  method SkipLine(source: string, start: nat) returns (index: nat)
    requires start <= |source|
    ensures index == LineEnd(source, start)
  {
    index := start;
    while index < |source| && source[index] != '\n'
      invariant index <= |source| && LineEnd(source, index) == LineEnd(source, start)
    {
      index := index + 1;
    }
  }

  method SkipBlock(source: string, start: nat) returns (index: nat)
    requires start <= |source|
    ensures index == BlockEnd(source, start)
  {
    index := start;
    while index < |source| && !(source[index] == '*' && index + 1 < |source| && source[index + 1] == '/')
      invariant index <= |source| && BlockEnd(source, index) == BlockEnd(source, start)
    {
      index := index + 1;
    }
  }

  lemma Slices(s: string, a: nat, b: nat, c: nat)
    requires a <= b <= c <= |s|
    ensures s[a..b] + s[b..c] == s[a..c]
  {
  }

  /** Copies up to and including the closing quote. */
  method CopyLiteral(source: string, start: nat, quote: char) returns (text: string, index: nat)
    requires start <= |source|
    ensures index == LiteralEnd(source, start, quote) && text == source[start..Min(index, |source|)]
  {
    text, index := "", start;
    while index < |source|
      invariant start <= index && text == source[start..Min(index, |source|)]
      invariant LiteralEnd(source, index, quote) == LiteralEnd(source, start, quote)
      decreases |source| - index
    {
      Slices(source, start, index, index + 1);
      if source[index] == '\\' {
        Slices(source, start, index, Min(index + 2, |source|));
        text := text + source[index..Min(index + 2, |source|)];
        index := index + 2;
        continue;
      }
      assert [source[index]] == source[index..index + 1];
      text := text + [source[index]];
      if source[index] == quote {
        index := index + 1;
        break;
      }
      index := index + 1;
    }
  }

  lemma {:induction false} LineEndShift(s: string, start: nat, i: nat)
    requires start + i <= |s|
    ensures LineEnd(s, start + i) == start + LineEnd(s[start..], i)
    decreases |s| - i
  {
    if start + i < |s| {
      LineEndShift(s, start, i + 1);
    }
  }

  lemma {:induction false} BlockEndShift(s: string, start: nat, i: nat)
    requires start + i <= |s|
    ensures BlockEnd(s, start + i) == start + BlockEnd(s[start..], i)
    decreases |s| - i
  {
    if start + i < |s| {
      BlockEndShift(s, start, i + 1);
    }
  }

  lemma {:induction false} LiteralEndShift(s: string, start: nat, i: nat, quote: char)
    requires start <= |s|
    ensures LiteralEnd(s, start + i, quote) == start + LiteralEnd(s[start..], i, quote)
    decreases |s| - i
  {
    if start + i < |s| {
      LiteralEndShift(s, start, i + 1, quote);
      LiteralEndShift(s, start, i + 2, quote);
    }
  }

  lemma FirstLiteral(s: string, body: string, m: nat)
    requires s != [] && Quote(s[0]) && !StartsLine(s) && !StartsBlock(s)
    requires body == s[1..] && m == Min(|body|, LiteralEnd(body, 0, s[0]))
    ensures First(s) == Literal([s[0]] + body[..m]) && s[1 + m..] == body[m..]
  {
    LiteralEndShift(s, 1, 0, s[0]);
    assert s[..1 + m] == [s[0]] + body[..m];
  }

  lemma LiteralPiece(source: string, start: nat, s: string, body: string, index: nat)
    requires start < |source| && s == source[start..] && body == source[start + 1..] && s != [] && body == s[1..]
    requires Quote(s[0]) && index == LiteralEnd(source, start + 1, s[0])
    ensures First(s) == Literal([s[0]] + source[start + 1..Min(index, |source|)])
  {
    var n := LiteralEnd(body, 0, s[0]);
    LiteralEndShift(source, start + 1, 0, s[0]);
    FirstLiteral(s, body, Min(|body|, n));
    Front(source, start + 1, Min(|body|, n));
  }

  lemma TailOf(s: string, i: nat)
    requires i < |s|
    ensures s[i..][1..] == s[i + 1..] && s[i..][0] == s[i]
  {
  }

  lemma Front(s: string, i: nat, m: nat)
    requires i + m <= |s|
    ensures s[i..][..m] == s[i..i + m]
  {
  }

  /** One turn of the outer loop: what is written for the token at `start`, and where to go on. */
  method NextPiece(source: string, start: nat) returns (piece: string, index: nat)
    requires start < |source|
    ensures piece == First(source[start..]).Stripped().Source()
    ensures start < index && Min(index, |source|) == start + |First(source[start..]).Source()|
  {
    var c := source[start];
    if c == '/' && start + 1 < |source| && source[start + 1] == '/' {
      LineEndShift(source, start, 0);
      index := SkipLine(source, start);
      piece := " ";
    } else if c == '/' && start + 1 < |source| && source[start + 1] == '*' {
      BlockEndShift(source, start, 2);
      index := SkipBlock(source, start + 2);
      index := index + 2;
      piece := " ";
    } else if Quote(c) {
      var text;
      text, index := CopyLiteral(source, start + 1, c);
      TailOf(source, start);
      LiteralPiece(source, start, source[start..], source[start + 1..], index);
      piece := [c] + text;
    } else {
      piece := [c];
      index := start + 1;
    }
  }

  method StripComments(source: string) returns (output: string)
    ensures output == Strip(source)
  {
    output := "";
    var index := 0;
    while index < |source|
      invariant 0 <= index
      invariant output + Strip(source[Min(index, |source|)..]) == Strip(source)
      decreases |source| - index
    {
      var piece, next := NextPiece(source, index);
      StripFrom(source, index, Min(next, |source|));
      ghost var tail := Strip(source[Min(next, |source|)..]);
      assert output + (piece + tail) == output + piece + tail;
      output, index := output + piece, next;
    }
  }

  // ---------------------------------------------------------------- what the tokens are

  /** What stands between two quotes: characters, and escapes that take any one character with them. */
  datatype Piece = Plain(c: char) | Escaped(c: char)
  {
    function Text(): string {
      if Plain? then [c] else ['\\', c]
    }
  }

  function Spelled(ps: seq<Piece>): string {
    if ps == [] then [] else ps[0].Text() + Spelled(ps[1..])
  }

  ghost predicate Inside(ps: seq<Piece>, quote: char) {
    forall i | 0 <= i < |ps| && ps[i].Plain? :: ps[i].c != quote && ps[i].c != '\\'
  }

  /** No closing delimiter starts among the first `n` characters. */
  ghost predicate Unclosed(body: string, n: nat) {
    forall k | 0 <= k < n && k + 1 < |body| :: !(body[k] == '*' && body[k + 1] == '/')
  }

  /** A line comment runs up to the first newline. */
  ghost predicate LineText(text: string, rest: string) {
    StartsLine(text) && '\n' !in text && (rest == "" || rest[0] == '\n')
  }

  /** A block comment runs through the first closing delimiter, or to the end where there is none. */
  ghost predicate BlockText(text: string, rest: string) {
    && StartsBlock(text)
    && var body := text[2..];
       || (|body| >= 2 && body[|body| - 2..] == "*/" && Unclosed(body, |body| - 2))
       || (rest == "" && Unclosed(body, |body|))
  }

  /** A literal runs through the first quote of its own kind that no escape has taken, or to the end. */
  ghost predicate LiteralText(text: string, rest: string) {
    exists quote: char, ps: seq<Piece> :: Quoted(text, rest, quote, ps)
  }

  ghost predicate Quoted(text: string, rest: string, quote: char, ps: seq<Piece>) {
    && quote in "\"'`" && Inside(ps, quote)
    && (|| text == [quote] + Spelled(ps) + [quote]
        || (rest == "" && (text == [quote] + Spelled(ps) || text == [quote] + Spelled(ps) + "\\")))
  }

  /** The token is what stands at the front of a text that goes on with `rest`. */
  ghost predicate Stands(t: Token, rest: string) {
    match t
    case LineComment(text) => LineText(text, rest)
    case BlockComment(text) => BlockText(text, rest)
    case Literal(text) => LiteralText(text, rest)
    case Code(c) => c !in "\"'`" && !(c == '/' && rest != "" && (rest[0] == '/' || rest[0] == '*'))
  }

  lemma {:induction false} LineEndIff(s: string, i: nat, n: nat)
    requires i <= n <= |s|
    ensures n == LineEnd(s, i) <==> (forall k | i <= k < n :: s[k] != '\n') && (n == |s| || s[n] == '\n')
    decreases |s| - i
  {
    if i < |s| && s[i] != '\n' && i < n {
      LineEndIff(s, i + 1, n);
    }
  }

  lemma {:induction false} BlockEndIff(s: string, i: nat, n: nat)
    requires i <= n <= |s|
    ensures n == BlockEnd(s, i) <==>
              && (forall k | i <= k < n && k + 1 < |s| :: !(s[k] == '*' && s[k + 1] == '/'))
              && (n == |s| || (s[n] == '*' && n + 1 < |s| && s[n + 1] == '/'))
    decreases |s| - i
  {
    if i < |s| && i < n {
      BlockEndIff(s, i + 1, n);
    }
  }

  lemma PastPiece(p: Piece, quote: char, after: string)
    requires Inside([p], quote) && Quote(quote)
    ensures LiteralEnd(p.Text() + after, 0, quote) == |p.Text()| + LiteralEnd(after, 0, quote)
  {
    var w, s := |p.Text()|, p.Text() + after;
    assert s[w..] == after;
    LiteralEndShift(s, w, 0, quote);
    assert [p][0] == p;
    assert LiteralEnd(s, 0, quote) == LiteralEnd(s, w, quote);
  }

  /** The pieces are passed over one by one. */
  lemma {:induction false} PastPieces(ps: seq<Piece>, quote: char, after: string)
    requires Inside(ps, quote) && Quote(quote)
    ensures LiteralEnd(Spelled(ps) + after, 0, quote) == |Spelled(ps)| + LiteralEnd(after, 0, quote)
  {
    if ps == [] {
      assert Spelled(ps) + after == after;
    } else {
      PastPiece(ps[0], quote, Spelled(ps[1..]) + after);
      PastPieces(ps[1..], quote, after);
      assert Spelled(ps) + after == ps[0].Text() + (Spelled(ps[1..]) + after);
    }
  }

  /** `ps` are the pieces of a literal's text behind its opening quote. */
  ghost predicate CutInto(s: string, quote: char, ps: seq<Piece>) {
    && Inside(ps, quote)
    && var n := LiteralEnd(s, 0, quote);
       || (n <= |s| && s[..n] == Spelled(ps) + [quote])
       || (n >= |s| && (s == Spelled(ps) || s == Spelled(ps) + "\\"))
  }

  lemma OneMorePiece(s: string, quote: char, p: Piece, ps: seq<Piece>)
    requires Quote(quote) && CutInto(s, quote, ps) && Inside([p], quote)
    ensures CutInto(p.Text() + s, quote, [p] + ps)
  {
    var w, t, n := |p.Text()|, p.Text() + s, LiteralEnd(s, 0, quote);
    PastPiece(p, quote, s);
    assert ([p] + ps)[1..] == ps;
    assert Inside([p] + ps, quote) by {
      assert [p][0] == p;
    }
    if n <= |s| && s[..n] == Spelled(ps) + [quote] {
      assert t[..w + n] == p.Text() + s[..n];
    }
  }

  lemma {:induction false} PiecesOf(s: string, quote: char) returns (ps: seq<Piece>)
    requires Quote(quote)
    ensures CutInto(s, quote, ps)
    decreases |s|
  {
    if s == [] || s == "\\" || s[0] == quote {
      ps := [];
    } else {
      var p := if s[0] == '\\' then Escaped(s[1]) else Plain(s[0]);
      var w := |p.Text()|;
      var more := PiecesOf(s[w..], quote);
      ps := [p] + more;
      OneMorePiece(s[w..], quote, p, more);
      assert s == p.Text() + s[w..];
    }
  }

  lemma CutStands(quote: char, body: string, n: nat, ps: seq<Piece>)
    requires Quote(quote) && CutInto(body, quote, ps) && n == LiteralEnd(body, 0, quote)
    ensures LiteralText([quote] + body[..Min(|body|, n)], body[Min(|body|, n)..])
  {
    Quotes(quote);
    var text, rest := [quote] + body[..Min(|body|, n)], body[Min(|body|, n)..];
    if n <= |body| && body[..n] == Spelled(ps) + [quote] {
      assert text == [quote] + Spelled(ps) + [quote];
    } else {
      assert body[..|body|] == body && rest == "";
      assert text == [quote] + Spelled(ps) || text == [quote] + Spelled(ps) + "\\";
    }
    assert Quoted(text, rest, quote, ps);
  }

  lemma LiteralStands(s: string)
    requires s != [] && Quote(s[0]) && !StartsLine(s) && !StartsBlock(s)
    ensures Stands(First(s), s[|First(s).Source()|..])
  {
    var quote, body := s[0], s[1..];
    var ps := PiecesOf(body, quote);
    var n := LiteralEnd(body, 0, quote);
    FirstLiteral(s, body, Min(|body|, n));
    CutStands(quote, body, n, ps);
  }

  /** The first token is one that stands there. */
  lemma FirstStands(s: string)
    requires s != []
    ensures Stands(First(s), s[|First(s).Source()|..])
  {
    var n := |First(s).Source()|;
    Quotes(s[0]);
    if StartsLine(s) {
      LineEndIff(s, 0, n);
    } else if StartsBlock(s) {
      BlockEndIff(s, 2, BlockEnd(s, 2));
      var body := s[..n][2..];
      assert forall k | 0 <= k < |body| :: body[k] == s[k + 2];
    } else if Quote(s[0]) {
      LiteralStands(s);
    }
  }

  lemma QuotedFirst(text: string, rest: string, quote: char, ps: seq<Piece>)
    requires Quoted(text, rest, quote, ps)
    ensures First(text + rest) == Literal(text)
  {
    var s := text + rest;
    Quotes(quote);
    var after := s[1 + |Spelled(ps)|..];
    assert s[1..] == Spelled(ps) + after;
    LiteralEndShift(s, 1, 0, quote);
    PastPieces(ps, quote, after);
    assert s[..|text|] == text;
    if text != [quote] + Spelled(ps) + [quote] {
      assert after == "" || after == "\\";
    }
  }

  lemma BlockFirst(text: string, rest: string)
    requires BlockText(text, rest)
    ensures First(text + rest) == BlockComment(text)
  {
    var s, body := text + rest, text[2..];
    assert forall k | 0 <= k < |body| :: body[k] == s[k + 2];
    if |body| >= 2 && body[|body| - 2..] == "*/" && Unclosed(body, |body| - 2) {
      assert body[|body| - 2] == body[|body| - 2..][0] && body[|body| - 1] == body[|body| - 2..][1];
      BlockEndIff(s, 2, |body|);
    } else {
      BlockEndIff(s, 2, |s|);
    }
    assert s[..|text|] == text;
  }

  /** Which token is first, said without the lexer: exactly the one that stands there. */
  lemma FirstIff(t: Token, rest: string)
    requires t.Source() != ""
    ensures First(t.Source() + rest) == t <==> Stands(t, rest)
  {
    var s := t.Source() + rest;
    assert s[..|t.Source()|] == t.Source() && s[|t.Source()|..] == rest;
    FirstStands(s);
    if Stands(t, rest) {
      match t
      case LineComment(text) => LineEndIff(s, 0, |text|);
      case BlockComment(text) => BlockFirst(text, rest);
      case Literal(text) =>
        var quote: char, ps: seq<Piece> :| Quoted(text, rest, quote, ps);
        QuotedFirst(text, rest, quote, ps);
      case Code(c) => Quotes(c);
    }
  }

  /** The tokens of a text, said without the lexer: each stands in front of those behind it. */
  ghost predicate Tokenizes(ts: seq<Token>, s: string) {
    Sources(ts) == s && forall i | 0 <= i < |ts| :: Stands(ts[i], Sources(ts[i + 1..]))
  }

  lemma StandsNonEmpty(t: Token, rest: string)
    requires Stands(t, rest)
    ensures t.Source() != ""
  {
  }

  /** Every text has exactly one reading, and the lexer finds it. */
  lemma {:induction false} LexIff(s: string, ts: seq<Token>)
    ensures Lex(s) == ts <==> Tokenizes(ts, s)
    decreases |s|
  {
    LexLossless(s);
    if s != [] {
      FirstStands(s);
      LexLossless(s[|First(s).Source()|..]);
      assert Lex(s)[1..] == Lex(s[|First(s).Source()|..]);
    }
    if ts != [] && Stands(ts[0], Sources(ts[1..])) && Sources(ts) == s {
      StandsNonEmpty(ts[0], Sources(ts[1..]));
      FirstIff(ts[0], Sources(ts[1..]));
      assert s[|ts[0].Source()|..] == Sources(ts[1..]);
      LexIff(Sources(ts[1..]), ts[1..]);
      TokenizesTail(ts, s);
    }
  }

  lemma TokenizesTail(ts: seq<Token>, s: string)
    requires ts != [] && Sources(ts) == s && Stands(ts[0], Sources(ts[1..]))
    ensures Tokenizes(ts, s) <==> Tokenizes(ts[1..], Sources(ts[1..]))
  {
    forall i | 0 < i < |ts| ensures ts[1..][i - 1] == ts[i] && ts[1..][i..] == ts[i + 1..] {
    }
    if Tokenizes(ts[1..], Sources(ts[1..])) {
      forall i | 0 <= i < |ts| ensures Stands(ts[i], Sources(ts[i + 1..])) {
        if i > 0 {
          assert Stands(ts[1..][i - 1], Sources(ts[1..][i..]));
        }
      }
    }
  }

  lemma StripToken(t: Token, rest: string)
    requires Stands(t, rest)
    ensures Strip(t.Source() + rest) == t.Stripped().Source() + Strip(rest)
  {
    StandsNonEmpty(t, rest);
    FirstIff(t, rest);
    StripStep(t.Source() + rest);
    assert (t.Source() + rest)[|t.Source()|..] == rest;
  }

  /** A line comment becomes one space, and the text goes on from its newline. */
  lemma LineCommentGoes(t: string, u: string)
    requires '\n' !in t
    ensures Strip("//" + t + "\n" + u) == " " + Strip("\n" + u) && Strip("\n" + u) == "\n" + Strip(u)
    ensures Strip("//" + t) == " "
  {
    var text := "//" + t;
    StripToken(LineComment(text), "\n" + u);
    StripToken(LineComment(text), "");
    StripToken(Code('\n'), u);
    assert "//" + t + "\n" + u == text + ("\n" + u) && text + "" == text;
  }

  /** A block comment becomes one space, and the text goes on behind its first closing delimiter. */
  lemma BlockCommentGoes(t: string, u: string)
    ensures Unclosed(t + "*/", |t|) ==> Strip("/*" + t + "*/" + u) == " " + Strip(u)
    ensures Unclosed(t, |t|) ==> Strip("/*" + t) == " "
  {
    if Unclosed(t + "*/", |t|) {
      var text := "/*" + t + "*/";
      assert text[2..] == t + "*/" && (t + "*/")[|t|..] == "*/";
      StripToken(BlockComment(text), u);
    }
    if Unclosed(t, |t|) {
      assert ("/*" + t)[2..] == t && "/*" + t + "" == "/*" + t;
      StripToken(BlockComment("/*" + t), "");
    }
  }

  /** A literal is copied through its closing quote, escapes in pairs; an unclosed one to the end. */
  lemma LiteralStays(quote: char, ps: seq<Piece>, u: string)
    requires quote in "\"'`" && Inside(ps, quote)
    ensures Strip([quote] + Spelled(ps) + [quote] + u) == [quote] + Spelled(ps) + [quote] + Strip(u)
    ensures Strip([quote] + Spelled(ps)) == [quote] + Spelled(ps)
    ensures Strip([quote] + Spelled(ps) + "\\") == [quote] + Spelled(ps) + "\\"
  {
    var open := [quote] + Spelled(ps);
    LiteralGoes(open + [quote], u, quote, ps);
    LiteralGoes(open, "", quote, ps);
    LiteralGoes(open + "\\", "", quote, ps);
    assert open + "" == open && open + "\\" + "" == open + "\\";
  }

  lemma LiteralGoes(text: string, rest: string, quote: char, ps: seq<Piece>)
    requires Quoted(text, rest, quote, ps)
    ensures Strip(text + rest) == text + Strip(rest) && Strip("") == ""
  {
    StripToken(Literal(text), rest);
  }

  /** Anything else is copied as it is, one character at a time. */
  lemma CodeStays(c: char, u: string)
    requires c !in "\"'`" && !(c == '/' && u != "" && (u[0] == '/' || u[0] == '*'))
    ensures Strip([c] + u) == [c] + Strip(u)
  {
    StripToken(Code(c), u);
  }

  // ---------------------------------------------------------------- what stripping keeps

  /** A closed literal ends where it ended, whatever now follows it. */
  lemma {:induction false} LiteralEndsThere(s: string, i: nat, quote: char, t: string)
    requires LiteralEnd(s, i, quote) <= |t|
    requires forall k | 0 <= k < LiteralEnd(s, i, quote) :: k < |s| && t[k] == s[k]
    requires LiteralEnd(s, i, quote) < |s|
    ensures LiteralEnd(t, i, quote) == LiteralEnd(s, i, quote)
    decreases |s| - i
  {
    if i < |s| && s[i] == '\\' {
      LiteralEndsThere(s, i + 2, quote, t);
    } else if i < |s| && s[i] != quote {
      LiteralEndsThere(s, i + 1, quote, t);
    }
  }

  lemma StripHead(s: string)
    ensures s == [] ==> Strip(s) == []
    ensures s != [] ==> Strip(s) != [] && (Strip(s)[0] == s[0] || Strip(s)[0] == ' ')
  {
    if s != [] {
      StripStep(s);
    }
  }

  lemma LiteralSurvives(s: string, text: string, after: string)
    requires s != [] && First(s) == Literal(text)
    requires after != [] ==> |text| < |s|
    ensures First(text + after) == Literal(text)
  {
    var n := LiteralEnd(s, 1, s[0]);
    var now := text + after;
    if n < |s| {
      LiteralEndsThere(s, 1, s[0], now);
    } else {
      assert now == text == s;
    }
    assert now[..|text|] == text;
  }

  lemma CodeSurvives(s: string, c: char, after: string)
    requires s != [] && First(s) == Code(c)
    requires after != [] && |s| > 1 ==> after[0] == s[1] || after[0] == ' '
    requires |s| == 1 ==> after == []
    ensures First([c] + after) == Code(c)
  {
    var now := [c] + after;
    assert after != [] ==> now[1] == after[0];
  }

  /** The rendered first token is still the first token of the stripped text. */
  lemma FirstSurvives(s: string)
    requires s != []
    ensures var t := First(s); First(t.Stripped().Source() + Strip(s[|t.Source()|..])) == t.Stripped()
  {
    var t := First(s);
    var rest := s[|t.Source()|..];
    StripHead(rest);
    match t
    case Literal(text) => LiteralSurvives(s, text, Strip(rest));
    case Code(c) => CodeSurvives(s, c, Strip(rest));
    case _ =>
  }

  lemma LexCons(t: Token, after: string)
    requires t.Source() != [] && First(t.Source() + after) == t
    ensures Lex(t.Source() + after) == [t] + Lex(after)
  {
    assert (t.Source() + after)[|t.Source()|..] == after;
  }

  /**
    Stripping acts on tokens: lexing the stripped text gives the original tokens with each comment
    turned into one space, so no literal, and no code, is joined, split or re-read.
   */
  lemma {:induction false} StripIsTokenwise(s: string)
    ensures Lex(Strip(s)) == StrippedAll(Lex(s))
    decreases |s|
  {
    if s == [] {
      assert Strip(s) == [];
    } else {
      var t := First(s);
      var rest := s[|t.Source()|..];
      FirstSurvives(s);
      LexCons(t.Stripped(), Strip(rest));
      StripIsTokenwise(rest);
      StripStep(s);
      LexStep(s);
      StrippedCons(t, Lex(rest));
    }
  }

  /** Output carries no comment, and stripping again changes nothing. */
  lemma StripIdempotent(s: string)
    ensures Strip(Strip(s)) == Strip(s)
    ensures forall t | t in Lex(Strip(s)) :: !t.Comment()
  {
    StripIsTokenwise(s);
    assert StrippedAll(StrippedAll(Lex(s))) == StrippedAll(Lex(s));
  }

  /** Place by place: a comment is now a blank, and every literal is where it was, verbatim. */
  lemma LiteralsKept(s: string)
    ensures |Lex(Strip(s))| == |Lex(s)|
    ensures forall i | 0 <= i < |Lex(s)| :: Lex(Strip(s))[i] == if Lex(s)[i].Comment() then Code(' ') else Lex(s)[i]
    ensures forall i | 0 <= i < |Lex(s)| && (Lex(s)[i].Literal? || Lex(Strip(s))[i].Literal?) ::
              Lex(Strip(s))[i] == Lex(s)[i]
  {
    StripIsTokenwise(s);
  }

  /** Text never grows, and a comment always shrinks it. */
  lemma {:induction false} StripShrinks(s: string)
    ensures |Strip(s)| <= |s|
    ensures (exists t | t in Lex(s) :: t.Comment()) ==> |Strip(s)| < |s|
    decreases |s|
  {
    if s != [] {
      var rest := s[|First(s).Source()|..];
      StripStep(s);
      LexStep(s);
      StripShrinks(rest);
      assert StartsLine(s) ==> LineEnd(s, 0) == LineEnd(s, 1) == LineEnd(s, 2);
      if t :| t in Lex(s) && t.Comment() {
        assert t == First(s) || t in Lex(rest);
      }
    }
  }

  /** Exactly the comment-free texts are left alone. */
  lemma StripIdentityIff(s: string)
    ensures Strip(s) == s <==> forall t | t in Lex(s) :: !t.Comment()
  {
    StripShrinks(s);
    if forall t | t in Lex(s) :: !t.Comment() {
      assert StrippedAll(Lex(s)) == Lex(s) by {
        forall i | 0 <= i < |Lex(s)| ensures Lex(s)[i].Stripped() == Lex(s)[i] {
          assert Lex(s)[i] in Lex(s);
        }
      }
      LexLossless(s);
    }
  }

  lemma AfterSlash(s: string)
    requires |s| > 1 && First(s) == Code('/')
    ensures First(s[1..]) != Code('/') && First(s[1..]) != Code('*') && !First(s[1..]).Comment()
  {
    assert First(s[1..]).Source()[0] == s[1];
  }

  /** Outside literals, no slash in the output is followed by a slash or a star. */
  lemma {:induction false} NoCommentStart(s: string, i: nat)
    requires i + 1 < |Lex(s)| && Lex(s)[i] == Code('/')
    ensures Lex(s)[i + 1] != Code('/') && Lex(s)[i + 1] != Code('*') && !Lex(s)[i + 1].Comment()
    decreases |s|
  {
    LexStep(s);
    var rest := s[|First(s).Source()|..];
    assert Lex(s)[i + 1] == Lex(rest)[i];
    if i > 0 {
      NoCommentStart(rest, i - 1);
    } else {
      assert rest == s[1..] && rest != [];
      LexStep(rest);
      AfterSlash(s);
    }
  }
}
