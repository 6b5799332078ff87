/** The lexer of scripts/eval-comments/strip_comments.py: where each lexeme ends. */
module Lexemes {
  import opened Wrappers
  import opened Strings

  datatype Lang = Rust | TypeScript

  /** The language runtime's character classes, which the tool takes as given. */
  datatype CharClass = CharClass(alnum: char -> bool, alpha: char -> bool, space: char -> bool)

  /** What the lexer and the stripper rely on of those classes. */
  ghost predicate Sane(cls: CharClass) {
    && cls.space(' ') && cls.space('\t') && cls.space('\r') && cls.space('\n')
    && !cls.space('/') && !cls.space('_') && !cls.space('$')
    && !cls.alnum('{') && !cls.alnum('}') && !cls.alnum('/') && !cls.alnum('\'') && !cls.alnum('$')
    && forall c :: cls.alnum(c) ==> !cls.space(c)
  }

  datatype Source = Source(text: string, lang: Lang, cls: CharClass)

  predicate Char(s: string, i: int, c: char) {
    0 <= i < |s| && s[i] == c
  }

  predicate WordChar(cls: CharClass, c: char) {
    cls.alnum(c) || c == '_'
  }

  predicate Blank(c: char) {
    c == ' ' || c == '\t' || c == '\r' || c == '\n'
  }

  /** The end of the line that `i` is on. */
  function LineEnd(s: string, i: nat): (r: nat)
    requires i <= |s|
    ensures i <= r <= |s| && (r < |s| ==> s[r] == '\n') && forall k :: i <= k < r ==> s[k] != '\n'
    decreases |s| - i
  {
    if i == |s| || s[i] == '\n' then i else LineEnd(s, i + 1)
  }

  /** Where a block comment that is `depth` levels deep at `j` ends. Only a Rust
      comment nests. */
  function BlockClose(s: string, nests: bool, depth: nat, j: nat): (r: nat)
    requires j <= |s|
    ensures j <= r <= |s|
    decreases |s| - j
  {
    if j == |s| || depth == 0 then j
    else if At(s, j, "*/") then BlockClose(s, nests, depth - 1, j + 2)
    else if nests && At(s, j, "/*") then BlockClose(s, nests, depth + 1, j + 2)
    else BlockClose(s, nests, depth, j + 1)
  }

  /** Where a quoted text ends: past the first quote no backslash escapes, at a
      line feed when those end it too, or at the end of the source. */
  function QuoteClose(s: string, j: nat, quote: char, stopAtNewline: bool): (r: nat)
    ensures j <= |s| ==> j <= r
    ensures r <= |s|
    decreases |s| - j
  {
    if j >= |s| then |s|
    else if s[j] == '\\' then QuoteClose(s, j + 2, quote, stopAtNewline)
    else if s[j] == quote then j + 1
    else if stopAtNewline && s[j] == '\n' then j
    else QuoteClose(s, j + 1, quote, stopAtNewline)
  }

  function CountHashes(s: string, i: nat): nat
    decreases |s| - i
  {
    if Char(s, i, '#') then 1 + CountHashes(s, i + 1) else 0
  }

  /** A string opener: an optional `b` or `c`, an optional `r`, hashes, a quote. */
  datatype Opener = Opener(raw: bool, hashes: nat, next: nat)

  function StringOpener(s: string, i: nat): (r: Option<Opener>)
    ensures r.Some? ==> i < r.value.next <= |s| && s[r.value.next - 1] == '"'
  {
    var p := if Char(s, i, 'b') || Char(s, i, 'c') then i + 1 else i;
    var raw := Char(s, p, 'r');
    var q := if raw then p + 1 else p;
    var hashes := CountHashes(s, q);
    CountHashesInBounds(s, q);
    if Char(s, q + hashes, '"') then Some(Opener(raw, hashes, q + hashes + 1)) else None
  }

  lemma CountHashesInBounds(s: string, i: nat)
    ensures i <= |s| ==> i + CountHashes(s, i) <= |s|
    decreases |s| - i
  {
  }

  /** How far the lookahead that decides on a string opener may see. */
  const WINDOW := 260

  /** A Rust string starts at `i`: not in the middle of a word, and a raw opener
      or a plain one, with no hash outside a raw opener. */
  predicate RustStringStarts(s: Source, i: nat)
    requires i < |s.text|
  {
    && !(i > 0 && WordChar(s.cls, s.text[i - 1]))
    && OpensInWindow(s.text[i..if i + WINDOW < |s.text| then i + WINDOW else |s.text|])
  }

  /** The two alternatives of the lookahead, tried in order. */
  predicate OpensInWindow(w: string) {
    var p := if Char(w, 0, 'b') || Char(w, 0, 'c') then 1 else 0;
    || (Char(w, p, 'r') && Char(w, p + 1 + CountHashes(w, p + 1), '"'))
    || (p == 1 && Char(w, 1, '"'))
  }

  predicate ClosesRaw(s: string, j: nat, hashes: nat) {
    Char(s, j, '"') && CountHashes(s, j + 1) >= hashes
  }

  /** Past the first quote that enough hashes follow, or the end of the source. */
  function RawClose(s: string, j: nat, hashes: nat): (r: nat)
    requires j <= |s|
    ensures j <= r <= |s|
    decreases |s| - j
  {
    if j == |s| then j
    else if ClosesRaw(s, j, hashes) then
      CountHashesInBounds(s, j + 1);
      j + 1 + hashes
    else RawClose(s, j + 1, hashes)
  }

  function RustStringEnd(s: string, i: nat, o: Opener): (r: nat)
    requires StringOpener(s, i) == Some(o)
    ensures i < r <= |s|
  {
    if o.raw then RawClose(s, o.next, o.hashes) else QuoteClose(s, o.next, '"', false)
  }

  function WordEnd(s: Source, j: nat): (r: nat)
    requires j <= |s.text|
    ensures j <= r <= |s.text|
    decreases |s.text| - j
  {
    if j < |s.text| && (WordChar(s.cls, s.text[j]) || s.text[j] == '$') then WordEnd(s, j + 1) else j
  }

  function AlphaEnd(s: Source, j: nat): (r: nat)
    requires j <= |s.text|
    ensures j <= r <= |s.text|
    decreases |s.text| - j
  {
    if j < |s.text| && s.cls.alpha(s.text[j]) then AlphaEnd(s, j + 1) else j
  }

  /** Where a regular expression whose body is at `j` ends, flags included, when
      it ends at all before the line does. */
  function RegexEnd(s: Source, j: nat, inClass: bool): (r: Option<nat>)
    ensures r.Some? ==> j < r.value <= |s.text|
    decreases |s.text| - j
  {
    if j >= |s.text| || s.text[j] == '\n' then None
    else if s.text[j] == '\\' then RegexEnd(s, j + 2, inClass)
    else if s.text[j] == '[' then RegexEnd(s, j + 1, true)
    else if s.text[j] == ']' then RegexEnd(s, j + 1, false)
    else if s.text[j] == '/' && !inClass then Some(AlphaEnd(s, j + 1))
    else RegexEnd(s, j + 1, inClass)
  }

  /** Where a template chunk read from `j` on ends: past the closing backtick, at
      a substitution's opener, or at the end of the source. */
  function ChunkEnd(s: string, j: nat): (r: nat)
    ensures j <= |s| ==> j <= r
    ensures r <= |s|
    decreases |s| - j
  {
    if j >= |s| then |s|
    else if s[j] == '\\' then ChunkEnd(s, j + 2)
    else if s[j] == '`' then j + 1
    else if At(s, j, "${") then j
    else ChunkEnd(s, j + 1)
  }

  /** How that chunk ends. */
  datatype Stop = Closed | Opens | Unclosed

  function ChunkStop(s: string, j: nat): (r: Stop)
    ensures r == Opens ==> At(s, ChunkEnd(s, j), "${")
    ensures r == Unclosed ==> ChunkEnd(s, j) == |s|
    decreases |s| - j
  {
    if j >= |s| then Unclosed
    else if s[j] == '\\' then ChunkStop(s, j + 2)
    else if s[j] == '`' then Closed
    else if At(s, j, "${") then Opens
    else ChunkStop(s, j + 1)
  }

  // ---- Facts about the ends ----

  /** The run-time assertion of `_rust_string` cannot fail. */
  lemma WindowOpenerIsOpener(s: Source, i: nat)
    requires i < |s.text| && RustStringStarts(s, i)
    ensures StringOpener(s.text, i).Some?
    ensures !StringOpener(s.text, i).value.raw ==> StringOpener(s.text, i).value.hashes == 0
  {
    var e := if i + WINDOW < |s.text| then i + WINDOW else |s.text|;
    var w := s.text[i..e];
    assert OpensInWindow(w);
    OpenerInText(s.text, i, w);
  }

  lemma OpenerInText(t: string, i: nat, w: string)
    requires i + |w| <= |t| && w == t[i..i + |w|] && OpensInWindow(w)
    requires |w| > 1
    ensures StringOpener(t, i).Some?
    ensures !StringOpener(t, i).value.raw ==> StringOpener(t, i).value.hashes == 0
  {
    assert forall k {:trigger w[k]} :: 0 <= k < |w| ==> w[k] == t[i + k];
    assert t[i] == w[0];
    var p := if Char(w, 0, 'b') || Char(w, 0, 'c') then 1 else 0;
    assert t[i + p] == w[p];
    if Char(w, p, 'r') && Char(w, p + 1 + CountHashes(w, p + 1), '"') {
      HashesInWindow(t, i, w, p + 1);
    }
  }

  lemma {:induction false} HashesInWindow(s: string, i: nat, w: string, p: nat)
    requires i + |w| <= |s| && forall k {:trigger w[k]} :: 0 <= k < |w| ==> w[k] == s[i + k]
    requires Char(w, p + CountHashes(w, p), '"')
    ensures CountHashes(s, i + p) == CountHashes(w, p) && Char(s, i + p + CountHashes(w, p), '"')
    decreases |w| - p
  {
    assert w[p] == s[i + p];
    if Char(w, p, '#') {
      HashesInWindow(s, i, w, p + 1);
    }
  }

  /** A block comment that closes ends in its closer. */
  lemma {:induction false} BlockCloseEndsInSlash(s: string, nests: bool, depth: nat, j: nat)
    requires j <= |s| && depth > 0
    ensures BlockClose(s, nests, depth, j) == |s| || s[BlockClose(s, nests, depth, j) - 1] == '/'
    decreases |s| - j
  {
    if j < |s| {
      if At(s, j, "*/") {
        assert s[j + 1] == s[j..j + 2][1];
        if depth > 1 {
          BlockCloseEndsInSlash(s, nests, depth - 1, j + 2);
        }
      } else if nests && At(s, j, "/*") {
        BlockCloseEndsInSlash(s, nests, depth + 1, j + 2);
      } else {
        BlockCloseEndsInSlash(s, nests, depth, j + 1);
      }
    }
  }

  lemma MarkFits(s: string, j: nat)
    ensures At(s, j, "*/") || At(s, j, "/*") ==> j + 2 <= |s|
  {
  }

  /** A nested comment is skipped whole: closing `d + e` levels is closing the
      inner `e` first and the outer `d` from there. */
  lemma {:induction false} NestedCommentIsSkipped(s: string, nests: bool, d: nat, e: nat, j: nat)
    requires j <= |s|
    ensures BlockClose(s, nests, d + e, j) == BlockClose(s, nests, d, BlockClose(s, nests, e, j))
    decreases |s| - j
  {
    MarkFits(s, j);
    hide At;
    if j < |s| && e > 0 {
      if At(s, j, "*/") {
        NestedCommentIsSkipped(s, nests, d, e - 1, j + 2);
      } else if nests && At(s, j, "/*") {
        NestedCommentIsSkipped(s, nests, d, e + 1, j + 2);
      } else {
        NestedCommentIsSkipped(s, nests, d, e, j + 1);
      }
    }
  }

  /** Without nesting, a comment runs to the first closer after its opener. */
  lemma {:induction false} FlatCommentEndsAtFirstCloser(s: string, j: nat, k: nat)
    requires j <= k && At(s, k, "*/") && forall i :: j <= i < k ==> !At(s, i, "*/")
    ensures BlockClose(s, false, 1, j) == k + 2
    decreases k - j
  {
    if j < k {
      FlatCommentEndsAtFirstCloser(s, j + 1, k);
    } else {
      assert BlockClose(s, false, 0, k + 2) == k + 2;
    }
  }
}

/** One pass over a source, and the tiling of the source it amounts to. */
module CommentLexer {
  import opened Wrappers
  import opened Strings
  import opened Lexemes

  datatype CommentKind = Line | Block

  datatype Comment = Comment(start: nat, end: nat, kind: CommentKind)

  datatype TokenKind = Word | Punct | Str | Chr | Template | Regex

  datatype Token = Token(kind: TokenKind, text: string)

  /** The stretches a source falls into. `first` marks the template chunk that
      holds the opening backtick. */
  datatype Tile =
    | Space(start: nat, end: nat)
    | Remark(start: nat, end: nat, comment: CommentKind)
    | Lexeme(start: nat, end: nat, token: TokenKind, first: bool)
    | Delimiter(start: nat, end: nat)

  /** Does a `//` at `i` start a comment? In TypeScript `://` is a URL in text. */
  predicate StartsLineComment(s: Source, i: nat) {
    At(s.text, i, "//") && !(s.lang == TypeScript && i > 0 && s.text[i - 1] == ':')
  }

  predicate RegexAllowed(tokens: seq<Token>) {
    tokens == [] ||
    var last := tokens[|tokens| - 1];
    match last.kind
    case Punct => last.text !in [")", "]", "}"]
    case Word => last.text in ["return", "typeof", "case", "in", "of", "new", "delete", "void", "throw", "yield",
                               "await", "else", "do"]
    case _ => false
  }

  /** What a character that opens no comment and no blank starts, in the order
      the lexer asks. */
  datatype Start = RustString | RustQuote | Quote | Backtick | RegexSlash | Other

  function StartOf(s: Source, tokens: seq<Token>, i: nat): Start
    requires i < |s.text|
  {
    var c := s.text[i];
    if s.lang == Rust && RustStringStarts(s, i) then RustString
    else if s.lang == Rust && c == '\'' then RustQuote
    else if c == '"' || (s.lang == TypeScript && c == '\'') then Quote
    else if s.lang == TypeScript && c == '`' then Backtick
    else if s.lang == TypeScript && c == '/' && RegexAllowed(tokens) then RegexSlash
    else Other
  }

  predicate StartsCode(s: Source, i: nat)
    requires i < |s.text|
  {
    !Blank(s.text[i]) && !StartsLineComment(s, i) && !At(s.text, i, "/*")
  }

  /** The token that starts at `i`, in code. */
  function TokenTile(s: Source, tokens: seq<Token>, i: nat): (t: Tile)
    requires i < |s.text|
    ensures t.Lexeme? && t.start == i < t.end <= |s.text|
  {
    match StartOf(s, tokens, i)
    case RustString =>
      WindowOpenerIsOpener(s, i);
      Lexeme(i, RustStringEnd(s.text, i, StringOpener(s.text, i).value), Str, false)
    case RustQuote =>
      if Char(s.text, i + 1, '\\') then Lexeme(i, QuoteClose(s.text, i + 1, '\'', false), Chr, false)
      else if Char(s.text, i + 2, '\'') then Lexeme(i, i + 3, Chr, false)
      else Lexeme(i, i + 1, Punct, false)
    case Quote => Lexeme(i, QuoteClose(s.text, i + 1, s.text[i], s.lang == TypeScript), Str, false)
    case Backtick => Lexeme(i, ChunkEnd(s.text, i + 1), Template, true)
    case RegexSlash =>
      (match RegexEnd(s, i + 1, false)
       case Some(e) => Lexeme(i, e, Regex, false)
       case None => Lexeme(i, i + 1, Punct, false))
    case Other =>
      if WordChar(s.cls, s.text[i]) then Lexeme(i, WordEnd(s, i), Word, false)
      else Lexeme(i, i + 1, Punct, false)
  }

  /** What stands at `i`, in code where no brace is special. */
  function CodeTile(s: Source, tokens: seq<Token>, i: nat): (t: Tile)
    requires i < |s.text|
    ensures t.start == i < t.end <= |s.text|
  {
    if Blank(s.text[i]) then Space(i, i + 1)
    else if StartsLineComment(s, i) then
      LineCommentEnds(s, i);
      Remark(i, LineEnd(s.text, i), Line)
    else if At(s.text, i, "/*") then Remark(i, BlockClose(s.text, s.lang == Rust, 1, i + 2), Block)
    else TokenTile(s, tokens, i)
  }

  /** Where an open template literal stands: before a substitution, inside one with so
      many braces open, or past its closing brace. */
  datatype Phase = Opening | Inside(depth: nat) | Resuming

  /** The open template literals, the innermost last. */
  type Context = seq<Phase>

  predicate In(ctx: Context, p: Phase) {
    ctx != [] && ctx[|ctx| - 1] == p
  }

  predicate InCode(ctx: Context) {
    ctx == [] || ctx[|ctx| - 1].Inside?
  }

  function Leave(ctx: Context): Context
    requires ctx != []
  {
    ctx[..|ctx| - 1]
  }

  predicate ClosesSubstitution(s: Source, tokens: seq<Token>, ctx: Context, i: nat)
    requires i < |s.text|
  {
    In(ctx, Inside(0)) && s.text[i] == '}' && StartsCode(s, i) && StartOf(s, tokens, i) == Other
  }

  /** The tile that comes next, or none at the end of the source. Each template literal
      that the source leaves open inside a substitution gets one empty last chunk. */
  function NextTile(s: Source, tokens: seq<Token>, ctx: Context, i: nat): (r: Option<Tile>)
    requires i <= |s.text|
    ensures r.Some? ==> r.value.start == i <= r.value.end <= |s.text|
  {
    if In(ctx, Opening) then if At(s.text, i, "${") then Some(Delimiter(i, i + 2)) else None
    else if In(ctx, Resuming) then Some(Lexeme(i, ChunkEnd(s.text, i), Template, false))
    else if i == |s.text| then if ctx == [] then None else Some(Lexeme(i, i, Template, false))
    else if ClosesSubstitution(s, tokens, ctx, i) then Some(Delimiter(i, i + 1))
    else Some(CodeTile(s, tokens, i))
  }

  /** The open template literals after a tile. */
  function NextContext(s: Source, ctx: Context, t: Tile): Context
    requires t.start <= |s.text|
  {
    if In(ctx, Opening) then Leave(ctx) + [Inside(0)]
    else if In(ctx, Resuming) then
      if ChunkStop(s.text, t.start) == Opens then Leave(ctx) + [Opening] else Leave(ctx)
    else if t.start == |s.text| then if ctx == [] then ctx else Leave(ctx)
    else if t.Delimiter? then if ctx == [] then ctx else Leave(ctx) + [Resuming]
    else if t.Lexeme? && t.token == Template then
      if ChunkStop(s.text, t.start + 1) == Opens then ctx + [Opening] else ctx
    else if ctx != [] && t.Lexeme? && t.token == Punct then
      var depth := if InCode(ctx) then ctx[|ctx| - 1].depth else 0;
      if s.text[t.start] == '{' then Leave(ctx) + [Inside(depth + 1)]
      else if s.text[t.start] == '}' && depth > 0 then Leave(ctx) + [Inside(depth - 1)]
      else ctx
    else ctx
  }

  function TokenOf(s: Source, t: Tile): seq<Token> {
    if t.Lexeme? && t.start <= t.end <= |s.text| then [Token(t.token, s.text[t.start..t.end])] else []
  }

  function Open(ctx: Context): nat {
    2 * |ctx| + if In(ctx, Resuming) then 1 else 0
  }

  lemma TilesEnd(s: Source, tokens: seq<Token>, ctx: Context, i: nat)
    requires i <= |s.text| && NextTile(s, tokens, ctx, i).Some?
    ensures
      var t := NextTile(s, tokens, ctx, i).value;
      i < t.end || (i == t.end && Open(NextContext(s, ctx, t)) < Open(ctx))
  {
    hide CodeTile, ChunkEnd, ChunkStop;
  }

  /** The tiles of the source from `i` on. */
  function TilesFrom(s: Source, tokens: seq<Token>, ctx: Context, i: nat): seq<Tile>
    requires i <= |s.text|
    decreases |s.text| - i, Open(ctx)
  {
    match NextTile(s, tokens, ctx, i)
    case None => []
    case Some(t) =>
      TilesEnd(s, tokens, ctx, i);
      [t] + TilesFrom(s, tokens + TokenOf(s, t), NextContext(s, ctx, t), t.end)
  }

  /** The tiling of a source: what the lexer takes each stretch of it for. */
  function Lexing(s: Source): seq<Tile> {
    TilesFrom(s, [], [], 0)
  }

  function CommentsOf(tiles: seq<Tile>): seq<Comment> {
    if tiles == [] then [] else CommentIn(tiles[0]) + CommentsOf(tiles[1..])
  }

  function CommentIn(t: Tile): seq<Comment> {
    if t.Remark? then [Comment(t.start, t.end, t.comment)] else []
  }

  function TokensOf(s: Source, tiles: seq<Tile>): seq<Token> {
    if tiles == [] then [] else TokenOf(s, tiles[0]) + TokensOf(s, tiles[1..])
  }

  lemma {:induction false} CommentsOfAppend(tiles: seq<Tile>, t: Tile)
    ensures CommentsOf(tiles + [t]) == CommentsOf(tiles) + CommentIn(t)
    decreases |tiles|
  {
    hide CommentIn;
    if tiles == [] {
      assert tiles + [t] == [t] && [t][1..] == [];
    } else {
      assert (tiles + [t])[1..] == tiles[1..] + [t];
      CommentsOfAppend(tiles[1..], t);
    }
  }

  lemma {:induction false} TokensOfAppend(s: Source, tiles: seq<Tile>, t: Tile)
    ensures TokensOf(s, tiles + [t]) == TokensOf(s, tiles) + TokenOf(s, t)
    decreases |tiles|
  {
    hide TokenOf;
    if tiles == [] {
      assert tiles + [t] == [t] && [t][1..] == [];
    } else {
      assert (tiles + [t])[1..] == tiles[1..] + [t];
      TokensOfAppend(s, tiles[1..], t);
    }
  }

  function Min(a: nat, b: nat): nat {
    if a < b then a else b
  }

  class Lexer {
    const source: Source
    var comments: seq<Comment>
    var tokens: seq<Token>
    ghost var tiles: seq<Tile>
    ghost var ctx: Context

    /** The pass has reached `i`: what it has tiled, and what is left to tile from there,
        are the tiling of the source. */
    ghost predicate HasReached(i: nat)
      reads this
    {
      && Sane(source.cls)
      && comments == CommentsOf(tiles) && tokens == TokensOf(source, tiles)
      && Lexing(source) == tiles + TilesFrom(source, tokens, ctx, Min(i, |source.text|))
    }

    constructor (source: Source)
      requires Sane(source.cls)
      ensures HasReached(0) && comments == [] && tokens == [] && ctx == [] && this.source == source
    {
      this.source := source;
      comments, tokens, tiles, ctx := [], [], [], [];
    }

    /** Lex the whole source. */
    method Run()
      requires HasReached(0) && ctx == []
      modifies this
      ensures comments == CommentsOf(Lexing(source)) && tokens == TokensOf(source, Lexing(source))
    {
      hide CommentsOf, TokensOf;
      var end := Scan(0, false);
      assert TilesFrom(source, tokens, [], |source.text|) == [];
      assert tiles + [] == tiles;
    }

    ghost method AddTile(i: nat, t: Tile)
      requires HasReached(i) && NextTile(source, tokens, ctx, Min(i, |source.text|)) == Some(t)
      modifies this`tiles, this`ctx
      ensures t.end <= |source.text| && ctx == NextContext(source, old(ctx), t)
      ensures CommentsOf(tiles) == comments + CommentIn(t)
      ensures TokensOf(source, tiles) == tokens + TokenOf(source, t)
      ensures Lexing(source) == tiles + TilesFrom(source, tokens + TokenOf(source, t), ctx, t.end)
    {
      hide NextTile, NextContext, CommentsOf, TokensOf, TokenOf;
      CommentsOfAppend(tiles, t);
      TokensOfAppend(source, tiles, t);
      ghost var next := NextContext(source, ctx, t);
      assert tiles + ([t] + TilesFrom(source, tokens + TokenOf(source, t), next, t.end))
          == (tiles + [t]) + TilesFrom(source, tokens + TokenOf(source, t), next, t.end);
      tiles, ctx := tiles + [t], next;
    }

    method AddToken(kind: TokenKind, start: nat, end: nat, ghost first: bool)
      requires HasReached(start) && start <= end
      requires NextTile(source, tokens, ctx, Min(start, |source.text|))
            == Some(Lexeme(Min(start, |source.text|), Min(end, |source.text|), kind, first))
      modifies this`tokens, this`tiles, this`ctx
      ensures HasReached(end)
      ensures ctx == NextContext(source, old(ctx), Lexeme(Min(start, |source.text|), Min(end, |source.text|), kind, first))
    {
      hide NextTile, NextContext, CommentsOf, TokensOf, TilesFrom, Lexing;
      var b, e := Min(start, |source.text|), Min(end, |source.text|);
      AddTile(start, Lexeme(b, e, kind, first));
      tokens := tokens + [Token(kind, source.text[b..e])];
    }

    /** A token in code that is no template and no brace. */
    method AddCodeToken(kind: TokenKind, start: nat, end: nat)
      requires HasReached(start) && InCode(ctx) && start < |source.text| && StartsCode(source, start)
      requires TokenTile(source, tokens, start) == Lexeme(start, end, kind, false)
      requires kind != Template && (kind == Punct ==> source.text[start] != '{' && source.text[start] != '}')
      requires !ClosesSubstitution(source, tokens, ctx, start)
      modifies this`tokens, this`tiles, this`ctx
      ensures HasReached(end) && ctx == old(ctx)
    {
      hide CommentsOf, TokensOf, TilesFrom, Lexing, TokenTile, StartOf;
      AddToken(kind, start, end, false);
    }

    method SkipEscaped(start: nat, quote: char, stopAtNewline: bool) returns (j: nat)
      ensures j == QuoteClose(source.text, start, quote, stopAtNewline)
    {
      j := start;
      while j < |source.text|
        invariant QuoteClose(source.text, j, quote, stopAtNewline) == QuoteClose(source.text, start, quote, stopAtNewline)
        decreases |source.text| - j
      {
        if source.text[j] == '\\' {
          j := j + 2;
        } else if source.text[j] == quote {
          return j + 1;
        } else if stopAtNewline && source.text[j] == '\n' {
          return j;
        } else {
          j := j + 1;
        }
      }
      return |source.text|;
    }

    method LineComment(i: nat) returns (j: nat)
      requires HasReached(i) && InCode(ctx) && i < |source.text| && !Blank(source.text[i]) && StartsLineComment(source, i)
      modifies this
      ensures HasReached(j) && i < j && ctx == old(ctx)
    {
      hide CommentsOf, TokensOf, TilesFrom, Lexing, TokenTile, StartsLineComment;
      j := LineEnd(source.text, i);
      LineCommentEnds(source, i);
      AddTile(i, Remark(i, j, Line));
      comments := comments + [Comment(i, j, Line)];
      assert tokens + [] == tokens;
    }

    method BlockComment(i: nat) returns (j: nat)
      requires HasReached(i) && InCode(ctx) && i < |source.text| && !Blank(source.text[i]) && !StartsLineComment(source, i)
      requires At(source.text, i, "/*")
      modifies this
      ensures HasReached(j) && i < j && ctx == old(ctx)
    {
      hide CommentsOf, TokensOf, TilesFrom, Lexing, TokenTile, StartsLineComment, BlockClose;
      j := FindBlockClose(i + 2);
      AddTile(i, Remark(i, j, Block));
      comments := comments + [Comment(i, j, Block)];
      assert tokens + [] == tokens;
    }

    method FindBlockClose(start: nat) returns (j: nat)
      requires start <= |source.text|
      ensures j == BlockClose(source.text, source.lang == Rust, 1, start)
    {
      hide At;
      var depth := 1;
      j := start;
      while j < |source.text| && depth > 0
        invariant start <= j <= |source.text|
        invariant BlockClose(source.text, source.lang == Rust, depth, j)
               == BlockClose(source.text, source.lang == Rust, 1, start)
        decreases |source.text| - j
      {
        AtFits(source.text, j);
        if At(source.text, j, "*/") {
          depth := depth - 1;
          j := j + 2;
        } else if source.lang == Rust && At(source.text, j, "/*") {
          depth := depth + 1;
          j := j + 2;
        } else {
          j := j + 1;
        }
      }
    }

    method RustStringToken(i: nat) returns (j: nat)
      requires HasReached(i) && InCode(ctx) && i < |source.text| && StartsCode(source, i)
      requires StartOf(source, tokens, i) == RustString
      modifies this
      ensures HasReached(j) && i < j && ctx == old(ctx)
    {
      hide CommentsOf, TokensOf, TilesFrom, Lexing, QuoteClose, RawClose, StringOpener, NextContext, StartsCode;
      WindowOpenerIsOpener(source, i);
      var o := StringOpener(source.text, i).value;
      if o.raw {
        j := FindRawClose(o.next, o.hashes);
      } else {
        j := SkipEscaped(o.next, '"', false);
      }
      AddCodeToken(Str, i, j);
    }

    method FindRawClose(start: nat, hashes: nat) returns (j: nat)
      requires start <= |source.text|
      ensures j == RawClose(source.text, start, hashes)
    {
      j := start;
      while j < |source.text|
        invariant start <= j <= |source.text|
        invariant RawClose(source.text, j, hashes) == RawClose(source.text, start, hashes)
      {
        if ClosesRaw(source.text, j, hashes) {
          return j + 1 + hashes;
        }
        j := j + 1;
      }
    }

    method RustQuoteToken(i: nat) returns (j: nat)
      requires HasReached(i) && InCode(ctx) && i < |source.text| && StartsCode(source, i)
      requires StartOf(source, tokens, i) == RustQuote
      modifies this
      ensures HasReached(j) && i < j && ctx == old(ctx)
    {
      hide CommentsOf, TokensOf, TilesFrom, Lexing, NextContext, StartsCode, QuoteClose;
      if Char(source.text, i + 1, '\\') {
        j := SkipEscaped(i + 1, '\'', false);
        AddCodeToken(Chr, i, j);
      } else if Char(source.text, i + 2, '\'') {
        j := i + 3;
        AddCodeToken(Chr, i, j);
      } else {
        j := i + 1;
        AddCodeToken(Punct, i, j);
      }
    }

    method QuotedToken(i: nat) returns (j: nat)
      requires HasReached(i) && InCode(ctx) && i < |source.text| && StartsCode(source, i)
      requires StartOf(source, tokens, i) == Quote
      modifies this
      ensures HasReached(j) && i < j && ctx == old(ctx)
    {
      hide CommentsOf, TokensOf, TilesFrom, Lexing, NextContext, StartsCode, QuoteClose;
      j := SkipEscaped(i + 1, source.text[i], source.lang == TypeScript);
      AddCodeToken(Str, i, j);
    }

    method WordOrPunct(i: nat) returns (j: nat)
      requires HasReached(i) && InCode(ctx) && i < |source.text| && StartsCode(source, i)
      requires StartOf(source, tokens, i) == Other && !ClosesSubstitution(source, tokens, ctx, i)
      modifies this
      ensures HasReached(j) && i < j
      ensures ctx == Counted(old(ctx), source.text[i])
    {
      hide CommentsOf, TokensOf, TilesFrom, Lexing, StartsLineComment, At, StartOf;
      if WordChar(source.cls, source.text[i]) {
        j := i;
        while j < |source.text| && (WordChar(source.cls, source.text[j]) || source.text[j] == '$')
          invariant i <= j <= |source.text| && WordEnd(source, j) == WordEnd(source, i)
        {
          j := j + 1;
        }
        AddCodeToken(Word, i, j);
      } else {
        j := i + 1;
        AddToken(Punct, i, j, false);
      }
    }

    method RegexToken(i: nat) returns (j: nat)
      requires HasReached(i) && InCode(ctx) && i < |source.text| && StartsCode(source, i)
      requires StartOf(source, tokens, i) == RegexSlash
      modifies this
      ensures HasReached(j) && i < j && ctx == old(ctx)
    {
      hide CommentsOf, TokensOf, TilesFrom, Lexing, NextContext, StartsCode;
      var inClass := false;
      j := i + 1;
      while j < |source.text| && source.text[j] != '\n'
        invariant i < j && RegexEnd(source, j, inClass) == RegexEnd(source, i + 1, false)
        decreases |source.text| - j
      {
        var c := source.text[j];
        if c == '\\' {
          j := j + 2;
          continue;
        }
        if c == '[' {
          inClass := true;
        } else if c == ']' {
          inClass := false;
        } else if c == '/' && !inClass {
          j := j + 1;
          ghost var flags := j;
          while j < |source.text| && source.cls.alpha(source.text[j])
            invariant flags <= j <= |source.text| && AlphaEnd(source, j) == AlphaEnd(source, flags)
          {
            j := j + 1;
          }
          AddCodeToken(Regex, i, j);
          return;
        }
        j := j + 1;
      }
      j := i + 1;
      AddCodeToken(Punct, i, j);
    }

    /** A template literal. Its substitutions are scanned by a nested `Scan`. The
        answer may lie past the end of the source when the literal never closes. */
    method TemplateToken(i: nat) returns (j: nat)
      requires HasReached(i) && InCode(ctx) && i < |source.text| && StartsCode(source, i)
      requires StartOf(source, tokens, i) == Backtick
      modifies this
      ensures HasReached(j) && i < j && ctx == old(ctx)
      decreases |source.text| - i, 0
    {
      hide CommentsOf, TokensOf, TilesFrom, Lexing, StartOf, At, StartsCode, NextTile, NextContext, TokenTile;
      j := i + 1;
      var start := i;
      ghost var outer: Context, body: nat := ctx, i + 1;
      while j < |source.text|
        invariant i < j && i <= start <= j && body <= j && HasReached(start)
        invariant AtChunk(source, tokens, outer, ctx, start, body)
        invariant start > |source.text| ==> j >= |source.text|
        invariant ChunkEnd(source.text, j) == ChunkEnd(source.text, body)
        invariant ChunkStop(source.text, j) == ChunkStop(source.text, body)
        decreases |source.text| - j
      {
        if source.text[j] == '\\' {
          j := j + 2;
        } else if source.text[j] == '`' {
          j := j + 1;
          break;
        } else if At(source.text, j, "${") {
          AtFits(source.text, j);
          ChunkComesNext(source, tokens, outer, ctx, start, body);
          AddToken(Template, start, j, body == start + 1);
          j := Substitution(j, outer);
          start, body := j, j;
        } else {
          j := j + 1;
        }
      }
      ChunkComesNext(source, tokens, outer, ctx, start, body);
      AddToken(Template, start, j, body == start + 1);
    }

    /** One `${`...`}` of a template, past its closing brace. */
    method Substitution(i: nat, ghost outer: Context) returns (j: nat)
      requires HasReached(i) && At(source.text, i, "${") && ctx == outer + [Opening]
      modifies this
      ensures HasReached(j) && i < j
      ensures j <= |source.text| ==> ctx == outer + [Resuming]
      ensures j > |source.text| ==> exists depth :: ctx == outer + [Inside(depth)]
      decreases |source.text| - i, 0
    {
      hide CommentsOf, TokensOf, TilesFrom, Lexing, CodeTile;
      AddTile(i, Delimiter(i, i + 2));
      assert tokens + [] == tokens;
      assert ctx == outer + [Inside(0)];
      j := Scan(i + 2, true);
      if j < |source.text| {
        assert Leave(ctx) == outer;
        AddTile(j, Delimiter(j, j + 1));
        assert tokens + [] == tokens;
      }
      j := j + 1;
    }

    method Scan(i: nat, stopAtBrace: bool) returns (j: nat)
      requires HasReached(i) && i <= |source.text|
      requires if stopAtBrace then In(ctx, Inside(0)) else ctx == []
      modifies this
      ensures HasReached(j) && i <= j
      ensures stopAtBrace && j < |source.text| ==> ctx == old(ctx) && ClosesSubstitution(source, tokens, ctx, j)
      ensures stopAtBrace && j >= |source.text| ==> exists depth :: ctx == Leave(old(ctx)) + [Inside(depth)]
      ensures !stopAtBrace ==> j >= |source.text| && ctx == []
      decreases |source.text| - i, 1
    {
      hide CommentsOf, TokensOf, TilesFrom, Lexing, NextTile, NextContext, CodeTile, TokenTile;
      hide StartsLineComment, RegexAllowed, RustStringStarts;
      j := i;
      var depth := 0;
      while j < |source.text|
        invariant i <= j && HasReached(j) && 0 <= depth
        invariant ctx == if stopAtBrace then Leave(old(ctx)) + [Inside(depth)] else []
        decreases |source.text| - j
      {
        var c := source.text[j];
        if Blank(c) {
          BlankComesNext(source, tokens, ctx, j);
          AddTile(j, Space(j, j + 1));
          assert tokens + [] == tokens;
          j := j + 1;
        } else if StartsLineComment(source, j) {
          j := LineComment(j);
        } else if At(source.text, j, "/*") {
          j := BlockComment(j);
        } else {
          match StartOf(source, tokens, j)
          case RustString => j := RustStringToken(j);
          case RustQuote => j := RustQuoteToken(j);
          case Quote => j := QuotedToken(j);
          case Backtick => j := TemplateToken(j);
          case RegexSlash => j := RegexToken(j);
          case Other =>
            if stopAtBrace && c == '}' && depth == 0 {
              return;
            }
            if stopAtBrace && c == '{' {
              depth := depth + 1;
            } else if stopAtBrace && c == '}' {
              depth := depth - 1;
            }
            j := WordOrPunct(j);
        }
      }
    }
  }

  /** The open literals after a word or a punctuation mark that begins with `c`. */
  function Counted(ctx: Context, c: char): Context
    requires InCode(ctx)
  {
    if ctx == [] then ctx
    else
      var depth := ctx[|ctx| - 1].depth;
      if c == '{' then Leave(ctx) + [Inside(depth + 1)]
      else if c == '}' && depth > 0 then Leave(ctx) + [Inside(depth - 1)]
      else ctx
  }

  lemma BlankComesNext(s: Source, tokens: seq<Token>, ctx: Context, j: nat)
    requires j < |s.text| && Blank(s.text[j]) && InCode(ctx)
    ensures NextTile(s, tokens, ctx, j) == Some(Space(j, j + 1))
    ensures NextContext(s, ctx, Space(j, j + 1)) == ctx
  {
  }

  /** A template chunk starts at `start`, and is read from `body` on: the first one of a
      literal, one past a substitution, or the empty one past the end of the source. */
  ghost predicate AtChunk(s: Source, tokens: seq<Token>, outer: Context, ctx: Context, start: nat, body: nat) {
    || (ctx == outer && InCode(ctx) && start < |s.text| && body == start + 1 && StartsCode(s, start)
        && StartOf(s, tokens, start) == Backtick)
    || (ctx == outer + [Resuming] && start <= |s.text| && body == start)
    || (start > |s.text| && body == start && exists depth :: ctx == outer + [Inside(depth)])
  }

  /** The tile of such a chunk, and what it leaves open. */
  lemma ChunkComesNext(s: Source, tokens: seq<Token>, outer: Context, ctx: Context, start: nat, body: nat)
    requires AtChunk(s, tokens, outer, ctx, start, body)
    ensures
      var t := Lexeme(Min(start, |s.text|), ChunkEnd(s.text, body), Template, body == start + 1);
      && NextTile(s, tokens, ctx, Min(start, |s.text|)) == Some(t)
      && NextContext(s, ctx, t) == if ChunkStop(s.text, body) == Opens then outer + [Opening] else outer
  {
    hide NextTile, NextContext, ChunkStop, ChunkEnd, StartsCode, StartOf;
    if body == start + 1 {
      FirstChunk(s, tokens, ctx, start);
    } else if start <= |s.text| {
      LaterChunk(s, tokens, outer, start);
    } else {
      var depth :| ctx == outer + [Inside(depth)];
      LastChunk(s, tokens, outer, depth, body);
    }
  }

  lemma FirstChunk(s: Source, tokens: seq<Token>, ctx: Context, start: nat)
    requires InCode(ctx) && start < |s.text| && StartsCode(s, start) && StartOf(s, tokens, start) == Backtick
    ensures
      var t := Lexeme(start, ChunkEnd(s.text, start + 1), Template, true);
      && NextTile(s, tokens, ctx, start) == Some(t)
      && NextContext(s, ctx, t) == if ChunkStop(s.text, start + 1) == Opens then ctx + [Opening] else ctx
  {
    hide ChunkStop, ChunkEnd, StartOf, StartsLineComment, At;
  }

  lemma LaterChunk(s: Source, tokens: seq<Token>, outer: Context, start: nat)
    requires start <= |s.text|
    ensures
      var t := Lexeme(start, ChunkEnd(s.text, start), Template, false);
      && NextTile(s, tokens, outer + [Resuming], start) == Some(t)
      && NextContext(s, outer + [Resuming], t) == if ChunkStop(s.text, start) == Opens then outer + [Opening] else outer
  {
    hide ChunkStop, ChunkEnd, CodeTile;
    assert Leave(outer + [Resuming]) == outer;
  }

  lemma LastChunk(s: Source, tokens: seq<Token>, outer: Context, depth: nat, body: nat)
    requires body > |s.text|
    ensures ChunkEnd(s.text, body) == |s.text| && ChunkStop(s.text, body) == Unclosed
    ensures
      var t := Lexeme(|s.text|, |s.text|, Template, false);
      && NextTile(s, tokens, outer + [Inside(depth)], |s.text|) == Some(t)
      && NextContext(s, outer + [Inside(depth)], t) == outer
  {
    hide CodeTile;
    assert Leave(outer + [Inside(depth)]) == outer;
  }

  lemma AtFits(s: string, j: nat)
    ensures At(s, j, "*/") || At(s, j, "/*") || At(s, j, "${") ==> j + 2 <= |s|
  {
  }

  lemma LineCommentEnds(s: Source, i: nat)
    requires i < |s.text| && StartsLineComment(s, i)
    ensures i < LineEnd(s.text, i)
  {
    assert s.text[i] == s.text[i..i + 2][0];
  }

  // ---- What the tiling says about the source ----

  /** Tiles from `i` on, each starting where the one before it ends. */
  ghost predicate Consecutive(s: Source, i: nat, tiles: seq<Tile>)
    decreases |tiles|
  {
    tiles == [] || (tiles[0].start == i <= tiles[0].end <= |s.text| && Consecutive(s, tiles[0].end, tiles[1..]))
  }

  function Reached(i: nat, tiles: seq<Tile>): nat {
    if tiles == [] then i else tiles[|tiles| - 1].end
  }

  /** A literal that is before a substitution stands at one. */
  ghost predicate AtOpening(s: Source, ctx: Context, i: nat) {
    (In(ctx, Opening) ==> At(s.text, i, "${"))
    && forall k :: 0 <= k < |ctx| - 1 ==> ctx[k].Inside?
  }

  lemma OpeningStands(s: Source, tokens: seq<Token>, ctx: Context, i: nat)
    requires i <= |s.text| && AtOpening(s, ctx, i) && NextTile(s, tokens, ctx, i).Some?
    ensures
      var t := NextTile(s, tokens, ctx, i).value;
      AtOpening(s, NextContext(s, ctx, t), t.end)
  {
    hide StartsCode, BlockClose, LineEnd, StartsLineComment, RegexAllowed, RustStringStarts;
  }

  /** The tiles stand back to back, and go on to the end of the source. */
  lemma {:induction false} TilesCover(s: Source, tokens: seq<Token>, ctx: Context, i: nat)
    requires i <= |s.text| && AtOpening(s, ctx, i)
    ensures Consecutive(s, i, TilesFrom(s, tokens, ctx, i))
    ensures Reached(i, TilesFrom(s, tokens, ctx, i)) == |s.text|
    decreases |s.text| - i, Open(ctx)
  {
    hide CodeTile, NextContext, AtOpening, TokenOf;
    match NextTile(s, tokens, ctx, i)
    case None =>
      NothingLeft(s, tokens, ctx, i);
    case Some(t) =>
      TilesEnd(s, tokens, ctx, i);
      OpeningStands(s, tokens, ctx, i);
      TilesCover(s, tokens + TokenOf(s, t), NextContext(s, ctx, t), t.end);
      var rest := TilesFrom(s, tokens + TokenOf(s, t), NextContext(s, ctx, t), t.end);
      assert ([t] + rest)[1..] == rest;
  }

  lemma NothingLeft(s: Source, tokens: seq<Token>, ctx: Context, i: nat)
    requires i <= |s.text| && AtOpening(s, ctx, i) && NextTile(s, tokens, ctx, i) == None
    ensures i == |s.text|
  {
  }

  lemma {:induction false} TilesAscend(s: Source, i: nat, tiles: seq<Tile>)
    requires Consecutive(s, i, tiles)
    ensures forall k :: 0 <= k < |tiles| ==> i <= tiles[k].start <= tiles[k].end <= |s.text|
    ensures forall j, k :: 0 <= j < k < |tiles| ==> tiles[j].end <= tiles[k].start
    decreases |tiles|
  {
    if tiles != [] {
      TilesAscend(s, tiles[0].end, tiles[1..]);
      assert forall k :: 0 < k < |tiles| ==> tiles[k] == tiles[1..][k - 1];
    }
  }

  lemma {:induction false} CharacterIsCovered(s: Source, i: nat, tiles: seq<Tile>, p: nat)
    requires Consecutive(s, i, tiles) && i <= p < Reached(i, tiles)
    ensures exists k :: 0 <= k < |tiles| && tiles[k].start <= p < tiles[k].end
    decreases |tiles|
  {
    if tiles[0].end <= p {
      CharacterIsCovered(s, tiles[0].end, tiles[1..], p);
      var k :| 0 <= k < |tiles[1..]| && tiles[1..][k].start <= p < tiles[1..][k].end;
      assert tiles[k + 1] == tiles[1..][k];
    }
  }

  /** Every character of the source lies in exactly one tile. */
  lemma EveryCharacterHasOneTile(s: Source, p: nat)
    requires p < |s.text|
    ensures
      var tiles := Lexing(s);
      && (exists k :: 0 <= k < |tiles| && tiles[k].start <= p < tiles[k].end)
      && forall i, k :: (0 <= i < |tiles| && 0 <= k < |tiles| && tiles[i].start <= p < tiles[i].end
                         && tiles[k].start <= p < tiles[k].end) ==> i == k
  {
    hide TilesFrom;
    TilesCover(s, [], [], 0);
    TilesAscend(s, 0, Lexing(s));
    CharacterIsCovered(s, 0, Lexing(s), p);
  }

  /** A comment is not empty, opens with a slash, and stops at the end of its line
      or at its closer, unless the source ends first. */
  ghost predicate CommentOk(s: Source, c: Comment) {
    && c.start < c.end <= |s.text| && s.text[c.start] == '/'
    && (c.end == |s.text| || match c.kind case Line => s.text[c.end] == '\n' case Block => s.text[c.end - 1] == '/')
  }

  lemma RemarkIsComment(s: Source, tokens: seq<Token>, ctx: Context, i: nat)
    requires i <= |s.text| && NextTile(s, tokens, ctx, i).Some? && NextTile(s, tokens, ctx, i).value.Remark?
    ensures
      var t := NextTile(s, tokens, ctx, i).value;
      CommentOk(s, Comment(t.start, t.end, t.comment))
  {
    hide TokenTile;
    assert s.text[i] == s.text[i..i + 2][0];
    if At(s.text, i, "/*") {
      BlockCloseEndsInSlash(s.text, s.lang == Rust, 1, i + 2);
    }
  }

  ghost predicate Ascending(comments: seq<Comment>) {
    forall i, j :: 0 <= i < j < |comments| ==> comments[i].end <= comments[j].start
  }

  lemma {:induction false} CommentsFromAreOk(s: Source, tokens: seq<Token>, ctx: Context, i: nat)
    requires i <= |s.text|
    ensures Ascending(CommentsOf(TilesFrom(s, tokens, ctx, i)))
    ensures forall c :: c in CommentsOf(TilesFrom(s, tokens, ctx, i)) ==> CommentOk(s, c) && i <= c.start
    decreases |s.text| - i, Open(ctx)
  {
    hide CodeTile, NextContext, TokenOf, CommentOk, NextTile;
    match NextTile(s, tokens, ctx, i)
    case None =>
    case Some(t) =>
      TilesEnd(s, tokens, ctx, i);
      var rest := TilesFrom(s, tokens + TokenOf(s, t), NextContext(s, ctx, t), t.end);
      CommentsFromAreOk(s, tokens + TokenOf(s, t), NextContext(s, ctx, t), t.end);
      assert ([t] + rest)[1..] == rest;
      if t.Remark? {
        RemarkIsComment(s, tokens, ctx, i);
      }
  }

  /** The comments of every source are ordered, in bounds, and shaped as comments. */
  lemma CommentsAreOk(s: Source)
    ensures Ascending(CommentsOf(Lexing(s))) && forall c :: c in CommentsOf(Lexing(s)) ==> CommentOk(s, c)
  {
    hide CommentsOf, TokensOf, TilesFrom, CommentOk;
    CommentsFromAreOk(s, [], [], 0);
  }

  /** `lex`: the comments and the tokens of a source. */
  method Lex(source: Source) returns (comments: seq<Comment>, tokens: seq<Token>)
    requires Sane(source.cls)
    ensures comments == CommentsOf(Lexing(source)) && tokens == TokensOf(source, Lexing(source))
  {
    hide Lexing, CommentsOf, TokensOf;
    var lexer := new Lexer(source);
    lexer.Run();
    comments, tokens := lexer.comments, lexer.tokens;
  }
}
