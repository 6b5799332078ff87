/** What each tile of a lexed source is, said without the scanners; and sources that are read
    back as they were written. */
module LexedShapes {
  import opened Wrappers
  import opened Strings
  import opened Lexemes
  import opened CommentLexer
  import opened LexemeEnds

  // ---- Openers of Rust strings ----

  predicate Is(s: string, i: nat, c: char) { i < |s| && s[i] == c }

  /** A raw opener of length `n` with that many hashes: an optional `b` or `c`, an `r`, the
      hashes, a quote. */
  predicate OpensRaw(s: string, i: nat, n: nat, hashes: nat) {
    var p := if Is(s, i, 'b') || Is(s, i, 'c') then 1 else 0;
    && n == p + hashes + 2 && i + n <= |s| && s[i + p] == 'r' && s[i + n - 1] == '"'
    && forall k :: i + p + 1 <= k < i + n - 1 ==> s[k] == '#'
  }

  predicate OpensPlain(s: string, i: nat) { (Is(s, i, 'b') || Is(s, i, 'c')) && Is(s, i + 1, '"') }

  /** A prefixed Rust string starts at `i`: not within a word, and with an opener that is plain
      or fits the 260 characters that the lookahead sees. */
  ghost predicate StartsPrefixed(s: Source, i: nat) {
    && !(0 < i <= |s.text| && WordChar(s.cls, s.text[i - 1]))
    && (OpensPlain(s.text, i) || exists n: nat, hashes: nat :: OpensRaw(s.text, i, n, hashes) && n <= 260)
  }

  lemma {:induction false} HashesThenQuote(s: string, i: nat, h: nat)
    requires i + h < |s| && s[i + h] == '"' && forall k :: i <= k < i + h ==> s[k] == '#'
    ensures CountHashes(s, i) == h
    decreases h
  {
    if h > 0 {
      HashesThenQuote(s, i + 1, h - 1);
    }
  }

  lemma CountedAreHashes(s: string, i: nat)
    ensures forall k :: i <= k < i + CountHashes(s, i) ==> Is(s, k, '#')
    decreases |s| - i
  {
    if Is(s, i, '#') {
      CountedAreHashes(s, i + 1);
    }
  }

  lemma RawIsOpener(s: string, i: nat, n: nat, hashes: nat)
    requires OpensRaw(s, i, n, hashes)
    ensures StringOpener(s, i) == Some(Opener(true, hashes, i + n))
  {
    var p := if Is(s, i, 'b') || Is(s, i, 'c') then 1 else 0;
    HashesThenQuote(s, i + p + 1, hashes);
  }

  lemma WindowIsExact(s: string, i: nat, w: string)
    requires i < |s| && w == s[i..if i + WINDOW < |s| then i + WINDOW else |s|]
    ensures OpensInWindow(w)
        <==> OpensPlain(s, i) || exists n: nat, hashes: nat :: OpensRaw(s, i, n, hashes) && n <= WINDOW
  {
    var p := if Is(s, i, 'b') || Is(s, i, 'c') then 1 else 0;
    assert forall k {:trigger w[k]} :: 0 <= k < |w| ==> w[k] == s[i + k];
    var h := CountHashes(w, p + 1);
    if Char(w, p, 'r') && Char(w, p + 1 + h, '"') {
      CountedAreHashes(w, p + 1);
      forall k | i + p + 1 <= k < i + p + 1 + h ensures s[k] == '#' {
        assert Is(w, k - i, '#');
      }
      assert s[i + p] == w[p] && s[i + p + 1 + h] == w[p + 1 + h];
      assert OpensRaw(s, i, p + h + 2, h);
    }
    if n: nat, hashes: nat :| OpensRaw(s, i, n, hashes) && n <= WINDOW {
      forall k | p + 1 <= k < p + 1 + hashes ensures w[k] == '#' {
        assert w[k] == s[i + k];
      }
      assert w[p] == s[i + p] && w[n - 1] == s[i + n - 1];
      HashesThenQuote(w, p + 1, hashes);
    }
    if OpensPlain(s, i) {
      assert w[0] == s[i] && w[1] == s[i + 1];
    }
    if p == 1 && Char(w, 1, '"') {
      assert w[1] == s[i + 1];
    }
  }

  lemma RustStringIsExact(s: Source, i: nat)
    requires i < |s.text|
    ensures RustStringStarts(s, i) <==> StartsPrefixed(s, i)
  {
    hide OpensInWindow, OpensRaw, OpensPlain;
    WindowIsExact(s.text, i, s.text[i..if i + WINDOW < |s.text| then i + WINDOW else |s.text|]);
  }

  /** The opener of a prefixed string that starts at `i`. */
  lemma PrefixedOpener(s: string, i: nat, o: Opener)
    requires StringOpener(s, i) == Some(o)
    requires OpensPlain(s, i) || exists n: nat, hashes: nat :: OpensRaw(s, i, n, hashes) && n <= WINDOW
    ensures o.raw ==> o.next >= i && OpensRaw(s, i, o.next - i, o.hashes) && o.next - i <= WINDOW
    ensures !o.raw ==> OpensPlain(s, i) && o.next == i + 2
  {
    if n: nat, hashes: nat :| OpensRaw(s, i, n, hashes) && n <= WINDOW {
      RawIsOpener(s, i, n, hashes);
    }
  }

  // ---- What a tile is ----

  ghost predicate IsStr(s: Source, i: nat, e: nat)
    requires i < |s.text|
  {
    if s.lang == TypeScript then (s.text[i] == '"' || s.text[i] == '\'') && IsQuoteEnd(s.text, i + 1, s.text[i], true, e)
    else
      || (s.text[i] == '"' && IsQuoteEnd(s.text, i + 1, '"', false, e))
      || (StartsPrefixed(s, i)
          && ((OpensPlain(s.text, i) && IsQuoteEnd(s.text, i + 2, '"', false, e))
              || exists n: nat, hashes: nat :: OpensRaw(s.text, i, n, hashes) && n <= WINDOW
                                              && IsRawEnd(s.text, i + n, hashes, e)))
  }

  /** A character: escaped, and then up to its quote; or one character between quotes. */
  ghost predicate IsChr(s: Source, i: nat, e: nat) {
    s.lang == Rust && Is(s.text, i, '\'')
    && if Is(s.text, i + 1, '\\') then IsQuoteEnd(s.text, i + 1, '\'', false, e)
       else e == i + 3 && Is(s.text, i + 2, '\'')
  }

  ghost predicate IsChunk(s: string, j: nat, e: nat) {
    exists stop :: IsChunkEnd(s, j, e, stop)
  }

  /** The keywords that an operand follows. */
  predicate IsOperandKeyword(word: string) {
    || word == "return" || word == "typeof" || word == "case" || word == "in" || word == "of" || word == "new"
    || word == "delete" || word == "void" || word == "throw" || word == "yield" || word == "await" || word == "else"
    || word == "do"
  }

  /** An operand may follow: nothing stands before, or a mark that closes no bracket, or such a
      keyword. */
  ghost predicate OperandMayFollow(tokens: seq<Token>) {
    tokens == []
    || var last := tokens[|tokens| - 1];
       || (last.kind == Punct && last.text != ")" && last.text != "]" && last.text != "}")
       || (last.kind == Word && IsOperandKeyword(last.text))
  }

  lemma OperandIsExact(tokens: seq<Token>)
    ensures RegexAllowed(tokens) <==> OperandMayFollow(tokens)
  {
  }

  ghost predicate IsRegex(s: Source, tokens: seq<Token>, i: nat, e: nat) {
    s.lang == TypeScript && Is(s.text, i, '/') && OperandMayFollow(tokens) && IsRegexEnd(s, i + 1, Some(e))
  }

  predicate StartsRemark(s: Source, i: nat) {
    || Nests(s.text, i)
    || (Is(s.text, i, '/') && Is(s.text, i + 1, '/')
        && !(s.lang == TypeScript && 0 < i <= |s.text| && s.text[i - 1] == ':'))
  }

  /** Does a literal start at `i`? */
  ghost predicate StartsLiteral(s: Source, tokens: seq<Token>, i: nat)
    requires i < |s.text|
  {
    || s.text[i] == '"'
    || (s.lang == TypeScript && (s.text[i] == '\'' || s.text[i] == '`' || exists e: nat :: IsRegex(s, tokens, i, e)))
    || (s.lang == Rust
        && (StartsPrefixed(s, i) || (s.text[i] == '\'' && (Is(s.text, i + 1, '\\') || Is(s.text, i + 2, '\'')))))
  }

  /** The codes of a space, a tab, a carriage return and a line feed. */
  predicate IsBlankCode(code: int) { code == 32 || code == 9 || code == 13 || code == 10 }

  ghost predicate IsToken(s: Source, tokens: seq<Token>, i: nat, e: nat, kind: TokenKind)
    requires i < |s.text|
  {
    !IsBlankCode(s.text[i] as int) && !StartsRemark(s, i)
    && match kind
       case Str => IsStr(s, i, e)
       case Chr => IsChr(s, i, e)
       case Template => s.lang == TypeScript && s.text[i] == '`' && IsChunk(s.text, i + 1, e)
       case Regex => IsRegex(s, tokens, i, e)
       case Word => WordChar(s.cls, s.text[i]) && IsWordEnd(s, i, e) && !StartsLiteral(s, tokens, i)
       case Punct => !WordChar(s.cls, s.text[i]) && e == i + 1 && !StartsLiteral(s, tokens, i)
  }

  ghost predicate IsRemark(s: Source, i: nat, e: nat, kind: CommentKind) {
    StartsRemark(s, i)
    && match kind
       case Line =>
         Is(s.text, i + 1, '/') && i < e <= |s.text| && (forall k :: i <= k < e ==> s.text[k] != '\n')
         && (e < |s.text| ==> s.text[e] == '\n')
       case Block => Is(s.text, i + 1, '*') && (s.lang == TypeScript ==> IsFlatEnd(s.text, i + 2, e))
  }

  /** The tile is what stands there, `tokens` being those before it. */
  ghost predicate IsTile(s: Source, tokens: seq<Token>, t: Tile) {
    match t
    case Space(i, e) => e == i + 1 && i < |s.text| && IsBlankCode(s.text[i] as int)
    case Remark(i, e, kind) => IsRemark(s, i, e, kind)
    case Lexeme(i, e, kind, first) =>
      if kind == Template && !first then IsChunk(s.text, i, e) || i == e == |s.text|
      else i < |s.text| && IsToken(s, tokens, i, e, kind)
    case Delimiter(i, e) =>
      (e == i + 2 && Is(s.text, i, '$') && Is(s.text, i + 1, '{')) || (e == i + 1 && Is(s.text, i, '}'))
  }

  // ---- Every tile is one ----

  lemma SlashesStand(s: string, i: nat)
    ensures At(s, i, "//") <==> Is(s, i, '/') && Is(s, i + 1, '/')
  {
    if i + 2 <= |s| {
      assert s[i..i + 2] == [s[i], s[i + 1]];
    }
  }

  lemma CodeStarts(s: Source, i: nat)
    requires i < |s.text|
    ensures StartsCode(s, i) <==> !Blank(s.text[i]) && !StartsRemark(s, i)
    ensures StartsLineComment(s, i) ==> StartsRemark(s, i) && Is(s.text, i + 1, '/')
    ensures At(s.text, i, "/*") ==> StartsRemark(s, i) && Is(s.text, i + 1, '*')
  {
    SlashesStand(s.text, i);
    MarksStand(s.text, i);
  }

  lemma StrIs(s: Source, tokens: seq<Token>, i: nat)
    requires i < |s.text| && (StartOf(s, tokens, i) == RustString || StartOf(s, tokens, i) == Quote)
    ensures TokenTile(s, tokens, i).token == Str && IsStr(s, i, TokenTile(s, tokens, i).end)
  {
    RustStringIsExact(s, i);
    hide RustStringStarts, OpensRaw, OpensPlain, StringOpener, QuoteClose, RawClose, IsQuoteEnd, IsRawEnd;
    if StartOf(s, tokens, i) == Quote {
      QuoteCloseIsExact(s.text, i + 1, s.text[i], s.lang == TypeScript);
    } else {
      WindowOpenerIsOpener(s, i);
      var o := StringOpener(s.text, i).value;
      PrefixedOpener(s.text, i, o);
      if o.raw {
        RawCloseIsExact(s.text, o.next, o.hashes);
        assert OpensRaw(s.text, i, o.next - i, o.hashes);
      } else {
        QuoteCloseIsExact(s.text, o.next, '"', false);
      }
    }
  }

  lemma ChrIs(s: Source, tokens: seq<Token>, i: nat)
    requires i < |s.text| && StartOf(s, tokens, i) == RustQuote
    ensures
      var t := TokenTile(s, tokens, i);
      && s.lang == Rust && s.text[i] == '\'' && !StartsPrefixed(s, i)
      && (t.token == Chr ==> IsChr(s, i, t.end))
      && (t.token != Chr ==> t.token == Punct && t.end == i + 1 && !Is(s.text, i + 1, '\\') && !Is(s.text, i + 2, '\''))
  {
    RustStringIsExact(s, i);
    hide RustStringStarts, StartsPrefixed, QuoteClose, IsQuoteEnd;
    if Is(s.text, i + 1, '\\') {
      QuoteCloseIsExact(s.text, i + 1, '\'', false);
    }
  }

  lemma RegexIs(s: Source, tokens: seq<Token>, i: nat)
    requires i < |s.text| && StartOf(s, tokens, i) == RegexSlash
    ensures
      var t := TokenTile(s, tokens, i);
      && s.lang == TypeScript && s.text[i] == '/'
      && (t.token == Regex ==> IsRegex(s, tokens, i, t.end))
      && (t.token != Regex ==> t.token == Punct && t.end == i + 1 && forall e: nat :: !IsRegex(s, tokens, i, e))
  {
    OperandIsExact(tokens);
    hide RegexEnd, IsRegexEnd, RegexAllowed, OperandMayFollow, RustStringStarts;
    RegexEndIsExact(s, i + 1);
    forall e: nat | IsRegexEnd(s, i + 1, Some(e)) ensures RegexEnd(s, i + 1, false) == Some(e) {
      RegexEndIsUnique(s, i + 1, Some(e), RegexEnd(s, i + 1, false));
    }
  }

  lemma RegexEndIsUnique(s: Source, j: nat, d: Option<nat>, e: Option<nat>)
    requires IsRegexEnd(s, j, d) && IsRegexEnd(s, j, e)
    ensures d == e
  {
    hide IsFree, InClass;
    if k: nat :| FirstRegexStop(s.text, j, k) {
      if s.text[k] == '/' {
        LettersEndOnce(s, k + 1, d.value, e.value);
      }
    }
  }

  ghost predicate FirstRegexStop(s: string, j: nat, k: nat) {
    StopsRegex(s, j, k) && forall i :: j <= i < k ==> !StopsRegex(s, j, i)
  }

  lemma LettersEndOnce(s: Source, k: nat, d: nat, e: nat)
    requires LettersEnd(s, k, d) && LettersEnd(s, k, e)
    ensures d == e
  {
  }

  lemma OtherIs(s: Source, tokens: seq<Token>, i: nat)
    requires i < |s.text| && Sane(s.cls) && StartsCode(s, i) && StartOf(s, tokens, i) == Other
    ensures !StartsLiteral(s, tokens, i)
    ensures
      var t := TokenTile(s, tokens, i);
      if WordChar(s.cls, s.text[i]) then t.token == Word && IsWordEnd(s, i, t.end) else t.token == Punct && t.end == i + 1
  {
    RustStringIsExact(s, i);
    WordEndIsExact(s, i);
    OperandIsExact(tokens);
    hide RustStringStarts, StartsPrefixed, IsRegexEnd, WordEnd, IsWordEnd, RegexAllowed, OperandMayFollow;
  }

  lemma TokenIsExact(s: Source, tokens: seq<Token>, i: nat)
    requires i < |s.text| && Sane(s.cls) && StartsCode(s, i)
    ensures
      var t := TokenTile(s, tokens, i);
      IsToken(s, tokens, i, t.end, t.token) && (t.token == Template ==> t.first)
  {
    CodeStarts(s, i);
    hide StartsCode, StartsRemark, IsStr, IsRegexEnd, RegexAllowed, IsQuoteEnd, QuoteClose, RawClose, ChunkEnd, RegexEnd, WordEnd,
         IsWordEnd, StringOpener, StartsPrefixed, RustStringStarts;
    match StartOf(s, tokens, i)
    case RustString => StrIs(s, tokens, i);
    case Quote => StrIs(s, tokens, i);
    case RustQuote =>
      ChrIs(s, tokens, i);
      QuoteIsNoWord(s.cls);
    case Backtick =>
      ChunkEndIsExact(s.text, i + 1);
    case RegexSlash =>
      RegexIs(s, tokens, i);
      QuoteIsNoWord(s.cls);
    case Other => OtherIs(s, tokens, i);
  }

  lemma QuoteIsNoWord(cls: CharClass)
    requires Sane(cls)
    ensures !WordChar(cls, '\'') && !WordChar(cls, '/')
  {
  }

  lemma RemarkIs(s: Source, i: nat)
    requires i < |s.text| && !Blank(s.text[i]) && !StartsCode(s, i)
    ensures CodeTile(s, [], i).Remark? && IsTile(s, [], CodeTile(s, [], i))
  {
    CodeStarts(s, i);
    if StartsLineComment(s, i) {
      LineCommentEnds(s, i);
    } else {
      MarksStand(s.text, i);
      if s.lang == TypeScript {
        FlatCommentIsExact(s.text, i + 2);
      }
    }
  }

  lemma CodeIsExact(s: Source, tokens: seq<Token>, i: nat)
    requires i < |s.text| && Sane(s.cls)
    ensures IsTile(s, tokens, CodeTile(s, tokens, i))
  {
    hide IsRemark, IsToken, TokenTile, StartsLineComment, BlockClose, LineEnd, At;
    if Blank(s.text[i]) {
    } else if StartsCode(s, i) {
      TokenIsExact(s, tokens, i);
    } else {
      RemarkIs(s, i);
      assert CodeTile(s, tokens, i) == CodeTile(s, [], i);
    }
  }

  lemma NextIsExact(s: Source, tokens: seq<Token>, ctx: Context, i: nat)
    requires i <= |s.text| && Sane(s.cls) && NextTile(s, tokens, ctx, i).Some?
    ensures IsTile(s, tokens, NextTile(s, tokens, ctx, i).value)
  {
    hide CodeTile, IsRemark, IsToken, ChunkEnd, At, StartsCode, StartOf;
    OpenerStands(s.text, i);
    ChunkEndIsExact(s.text, i);
    if i < |s.text| {
      CodeIsExact(s, tokens, i);
    }
  }

  lemma {:induction false} TilesAreExact(s: Source, tokens: seq<Token>, ctx: Context, i: nat, k: nat)
    requires i <= |s.text| && Sane(s.cls) && k < |TilesFrom(s, tokens, ctx, i)|
    ensures
      var tiles := TilesFrom(s, tokens, ctx, i);
      IsTile(s, tokens + TokensOf(s, tiles[..k]), tiles[k])
    decreases k
  {
    hide NextTile, NextContext, IsTile, TokenOf;
    var tiles := TilesFrom(s, tokens, ctx, i);
    var t := NextTile(s, tokens, ctx, i).value;
    if k == 0 {
      NextIsExact(s, tokens, ctx, i);
      assert tokens + TokensOf(s, tiles[..0]) == tokens;
    } else {
      TilesEnd(s, tokens, ctx, i);
      var more, next := tokens + TokenOf(s, t), NextContext(s, ctx, t);
      TilesAreExact(s, more, next, t.end, k - 1);
      var rest := TilesFrom(s, more, next, t.end);
      assert tiles[..k][1..] == rest[..k - 1] && tiles[..k][0] == t && tiles[k] == rest[k - 1];
      assert tokens + (TokenOf(s, t) + TokensOf(s, rest[..k - 1])) == more + TokensOf(s, rest[..k - 1]);
    }
  }

  /** Every tile of every source is what stands there: where each literal, word and comment
      starts and ends is said by the characters alone. */
  lemma EveryTileIsExact(s: Source, k: nat)
    requires Sane(s.cls) && k < |Lexing(s)|
    ensures IsTile(s, TokensOf(s, Lexing(s)[..k]), Lexing(s)[k])
  {
    hide TilesFrom, IsTile;
    TilesAreExact(s, [], [], 0, k);
    assert [] + TokensOf(s, Lexing(s)[..k]) == TokensOf(s, Lexing(s)[..k]);
  }
}

/** Sources written piece by piece, and read back. */
module WrittenSources {
  import opened Wrappers
  import opened Strings
  import opened Lexemes
  import opened CommentLexer
  import opened LexemeEnds
  import opened LexedShapes

  /** A text as it stands between quotes: quotes, backslashes and line feeds are escaped. */
  function Escape(u: string, quote: char): string {
    if u == "" then ""
    else (if u[0] == '\\' || u[0] == quote || u[0] == '\n' then ['\\', u[0]] else [u[0]]) + Escape(u[1..], quote)
  }

  function Quoted(u: string, quote: char): string { [quote] + Escape(u, quote) + [quote] }

  /** Whatever the text is, its literal ends at its own closing quote. */
  lemma {:induction false} EscapedCloses(s: string, j: nat, u: string, quote: char, stopAtNewline: bool)
    requires quote != '\\' && quote != '\n' && At(s, j, Escape(u, quote) + [quote])
    ensures QuoteClose(s, j, quote, stopAtNewline) == j + |Escape(u, quote)| + 1
    decreases |u|
  {
    var rest := Escape(u[if u == "" then 0 else 1..], quote) + [quote];
    if u == "" {
      assert s[j..j + 1][0] == s[j];
    } else {
      var head := if u[0] == '\\' || u[0] == quote || u[0] == '\n' then ['\\', u[0]] else [u[0]];
      assert Escape(u, quote) + [quote] == head + rest;
      StandsLater(s, j, head, rest);
      assert s[j..j + |head|][0] == s[j];
      EscapedCloses(s, j + |head|, u[1..], quote, stopAtNewline);
    }
  }

  /** A quote that starts a string of the language. */
  predicate IsQuote(lang: Lang, quote: char) { quote == '"' || (lang == TypeScript && quote == '\'') }

  /** So it is one string token, in code of any kind and after any tokens: what it holds, comment
      marks included, is never looked at. */
  lemma QuotedIsOneToken(s: Source, tokens: seq<Token>, ctx: Context, i: nat, u: string, quote: char)
    requires IsQuote(s.lang, quote) && InCode(ctx) && At(s.text, i, Quoted(u, quote))
    ensures i < |s.text|
    ensures NextTile(s, tokens, ctx, i) == Some(Lexeme(i, i + |Quoted(u, quote)|, Str, false))
  {
    QuotedStands(s.text, i, u, quote);
    EscapedCloses(s.text, i + 1, u, quote, s.lang == TypeScript);
    hide At, Quoted, Escape;
    QuoteIsNext(s, tokens, ctx, i);
  }

  lemma QuotedStands(s: string, i: nat, u: string, quote: char)
    requires At(s, i, Quoted(u, quote))
    ensures i < |s| && s[i] == quote && At(s, i + 1, Escape(u, quote) + [quote])
    ensures |Quoted(u, quote)| == |Escape(u, quote)| + 2
  {
    assert Quoted(u, quote) == [quote] + (Escape(u, quote) + [quote]);
    StandsLater(s, i, [quote], Escape(u, quote) + [quote]);
    assert s[i..i + 1][0] == s[i];
  }

  lemma QuoteIsNext(s: Source, tokens: seq<Token>, ctx: Context, i: nat)
    requires i < |s.text| && IsQuote(s.lang, s.text[i]) && InCode(ctx)
    ensures NextTile(s, tokens, ctx, i)
         == Some(Lexeme(i, QuoteClose(s.text, i + 1, s.text[i], s.lang == TypeScript), Str, false))
  {
    QuoteStartsQuote(s, tokens, i);
    SlashesStand(s.text, i);
    MarksStand(s.text, i);
    hide At, StartOf, QuoteClose;
  }

  lemma QuoteStartsQuote(s: Source, tokens: seq<Token>, i: nat)
    requires i < |s.text| && IsQuote(s.lang, s.text[i])
    ensures StartOf(s, tokens, i) == Quote
  {
    if s.lang == Rust {
      var w := s.text[i..if i + WINDOW < |s.text| then i + WINDOW else |s.text|];
      assert w[0] == s.text[i];
    }
  }

  // ---- A whole source ----

  /** What a source may be written from, each piece on a line of its own. */
  datatype Piece = Name(text: string) | Literal(body: string) | Mark(c: char) | LineNote(body: string) | BlockNote(body: string)

  predicate IsPiece(cls: CharClass, p: Piece) {
    match p
    case Name(text) =>
      text != "" && WordChar(cls, text[0])
      && forall k :: 0 <= k < |text| ==> (WordChar(cls, text[k]) || text[k] == '$') && text[k] !in "\"#`"
    case Literal(_) => true
    case Mark(c) => !WordChar(cls, c) && !Blank(c) && c !in "\"'`/"
    case LineNote(body) => '\n' !in body
    case BlockNote(body) => HasNoMark(body, '*')
  }

  function Written(p: Piece): string {
    match p
    case Name(text) => text
    case Literal(body) => Quoted(body, '"')
    case Mark(c) => [c]
    case LineNote(body) => "//" + body
    case BlockNote(body) => "/*" + body + "*/"
  }

  function AllWritten(pieces: seq<Piece>): string {
    if pieces == [] then "" else Written(pieces[0]) + ['\n'] + AllWritten(pieces[1..])
  }

  function TileOf(p: Piece, i: nat): Tile {
    var e := i + |Written(p)|;
    match p
    case Name(_) => Lexeme(i, e, Word, false)
    case Literal(_) => Lexeme(i, e, Str, false)
    case Mark(_) => Lexeme(i, e, Punct, false)
    case LineNote(_) => Remark(i, e, Line)
    case BlockNote(_) => Remark(i, e, Block)
  }

  function TilesOf(pieces: seq<Piece>, i: nat): seq<Tile> {
    if pieces == [] then []
    else
      var e := i + |Written(pieces[0])|;
      [TileOf(pieces[0], i), Space(e, e + 1)] + TilesOf(pieces[1..], e + 1)
  }

  lemma NameComesNext(s: Source, tokens: seq<Token>, i: nat, text: string)
    requires Sane(s.cls) && IsPiece(s.cls, Name(text)) && At(s.text, i, text + ['\n'])
    ensures i < |s.text| && NextTile(s, tokens, [], i) == Some(TileOf(Name(text), i))
  {
    var e := i + |text|;
    LineStands(s.text, i, text);
    NewlineEndsWord(s.cls);
    WordEndIs(s, i, e);
    NameIsNoString(s, i, e);
    RustStringIsExact(s, i);
    SlashesStand(s.text, i);
    MarksStand(s.text, i);
    NameStarts(s.cls, text[0]);
    hide At, WordEnd, RustStringStarts, StartsPrefixed;
  }

  /** Character by character: the text, and the line feed after it. */
  lemma LineStands(s: string, i: nat, text: string)
    requires At(s, i, text + ['\n'])
    ensures i + |text| < |s| && s[i + |text|] == '\n' && forall k :: i <= k < i + |text| ==> s[k] == text[k - i]
  {
    forall k | i <= k <= i + |text| ensures s[k] == (text + ['\n'])[k - i] {
      assert s[i..i + |text| + 1][k - i] == s[k];
    }
  }

  lemma {:induction false} WordEndIs(s: Source, i: nat, e: nat)
    requires i <= e < |s.text| && !WordChar(s.cls, s.text[e]) && s.text[e] != '$'
    requires forall k :: i <= k < e ==> WordChar(s.cls, s.text[k]) || s.text[k] == '$'
    ensures WordEnd(s, i) == e
    decreases e - i
  {
    if i < e {
      WordEndIs(s, i + 1, e);
    }
  }

  lemma NewlineEndsWord(cls: CharClass)
    requires Sane(cls)
    ensures !WordChar(cls, '\n')
  {
  }

  lemma NameStarts(cls: CharClass, c: char)
    requires Sane(cls) && WordChar(cls, c)
    ensures !Blank(c) && c != '/' && c != '\''
  {
  }

  lemma NameIsNoString(s: Source, i: nat, e: nat)
    requires i < e < |s.text| && s.text[e] == '\n'
    requires forall k :: i <= k < e ==> s.text[k] != '"' && s.text[k] != '#'
    ensures !StartsPrefixed(s, i)
  {
    forall n: nat, hashes: nat ensures !OpensRaw(s.text, i, n, hashes) {
      var p := if Is(s.text, i, 'b') || Is(s.text, i, 'c') then 1 else 0;
      if i + n <= |s.text| && n == p + hashes + 2 && s.text[i + p] == 'r' && s.text[i + n - 1] == '"' {
        assert s.text[i + 1] == '\n' || i + 1 < e;
        assert i + p + 1 <= e < i + n - 1;
      }
    }
  }

  lemma MarkComesNext(s: Source, tokens: seq<Token>, i: nat, c: char)
    requires Sane(s.cls) && IsPiece(s.cls, Mark(c)) && At(s.text, i, [c] + ['\n'])
    ensures i < |s.text| && NextTile(s, tokens, [], i) == Some(TileOf(Mark(c), i))
  {
    assert s.text[i..i + 2][0] == s.text[i] && s.text[i..i + 2][1] == s.text[i + 1];
    SlashesStand(s.text, i);
    MarksStand(s.text, i);
    RustStringIsExact(s, i);
    assert !StartsPrefixed(s, i);
    hide At, RustStringStarts, StartsPrefixed;
  }

  lemma LiteralComesNext(s: Source, tokens: seq<Token>, i: nat, body: string)
    requires At(s.text, i, Written(Literal(body)) + ['\n'])
    ensures i < |s.text| && NextTile(s, tokens, [], i) == Some(TileOf(Literal(body), i))
  {
    StandsLater(s.text, i, Quoted(body, '"'), ['\n']);
    QuotedIsOneToken(s, tokens, [], i, body, '"');
  }

  lemma LineNoteComesNext(s: Source, tokens: seq<Token>, i: nat, body: string)
    requires IsPiece(s.cls, LineNote(body)) && At(s.text, i, "//" + body + ['\n'])
    requires i > 0 ==> s.text[i - 1] == '\n'
    ensures i < |s.text| && NextTile(s, tokens, [], i) == Some(TileOf(LineNote(body), i))
  {
    var text := "//" + body;
    LineStands(s.text, i, text);
    var e := i + |text|;
    forall k | i <= k < e ensures s.text[k] != '\n' {
      assert k >= i + 2 ==> text[k - i] == body[k - i - 2];
    }
    assert s.text[i] == '/' && s.text[i + 1] == '/';
    LineNoteIsNext(s, tokens, i, e);
  }

  lemma LineNoteIsNext(s: Source, tokens: seq<Token>, i: nat, e: nat)
    requires i + 1 < e < |s.text| && s.text[i] == '/' && s.text[i + 1] == '/' && s.text[e] == '\n'
    requires (forall k :: i <= k < e ==> s.text[k] != '\n') && (i > 0 ==> s.text[i - 1] == '\n')
    ensures NextTile(s, tokens, [], i) == Some(Remark(i, e, Line))
  {
    SlashesStand(s.text, i);
    hide At, LineEnd;
  }

  lemma BlockNoteComesNext(s: Source, tokens: seq<Token>, i: nat, body: string)
    requires IsPiece(s.cls, BlockNote(body)) && At(s.text, i, "/*" + body + "*/" + ['\n'])
    ensures i < |s.text| && NextTile(s, tokens, [], i) == Some(TileOf(BlockNote(body), i))
  {
    BlockNoteStands(s.text, i, body);
    BlockNoteEnds(s, i, body);
    hide At, BlockClose, HasNoMark;
    BlockNoteIsNext(s, tokens, i);
  }

  lemma BlockNoteIsNext(s: Source, tokens: seq<Token>, i: nat)
    requires i + 1 < |s.text| && s.text[i] == '/' && s.text[i + 1] == '*' && At(s.text, i, "/*")
    ensures NextTile(s, tokens, [], i) == Some(Remark(i, BlockClose(s.text, s.lang == Rust, 1, i + 2), Block))
  {
    SlashesStand(s.text, i);
    hide At, BlockClose;
  }

  lemma BlockNoteStands(s: string, i: nat, body: string)
    requires At(s, i, "/*" + body + "*/" + ['\n'])
    ensures i + 1 < |s| && s[i] == '/' && s[i + 1] == '*' && At(s, i, "/*") && At(s, i + 2, body + "*/")
  {
    var rest := body + "*/" + ['\n'];
    assert "/*" + body + "*/" + ['\n'] == "/*" + rest;
    StandsLater(s, i, "/*", rest);
    StandsLater(s, i + 2, body + "*/", ['\n']);
    assert s[i..i + 2][0] == s[i] && s[i..i + 2][1] == s[i + 1];
  }

  lemma BlockNoteEnds(s: Source, i: nat, body: string)
    requires HasNoMark(body, '*') && At(s.text, i + 2, body + "*/")
    ensures BlockClose(s.text, s.lang == Rust, 1, i + 2) == i + |body| + 4
  {
    if s.lang == Rust {
      hide HasNoMark, At;
      NestedCommentIsExact(s.text, 0, i + 2, Text(body));
      assert BlockClose(s.text, true, 0, i + 4 + |body|) == i + 4 + |body|;
    } else {
      FirstCloser(s.text, i + 2, body);
      FlatCommentIsExact(s.text, i + 2);
    }
  }

  lemma FirstCloser(s: string, j: nat, body: string)
    requires HasNoMark(body, '*') && At(s, j, body + "*/")
    ensures Closes(s, j + |body|) && forall i :: j <= i < j + |body| ==> !Closes(s, i)
  {
    var text := body + "*/";
    forall i | j <= i < j + |text| ensures s[i] == text[i - j] {
      assert s[j..j + |text|][i - j] == s[i];
    }
    forall i | j <= i < j + |body| ensures !Closes(s, i) {
      assert !Closes(body + ['*'], i - j);
      assert i + 1 - j < |body + ['*']|;
    }
  }

  lemma PieceComesNext(s: Source, tokens: seq<Token>, i: nat, p: Piece)
    requires Sane(s.cls) && IsPiece(s.cls, p) && At(s.text, i, Written(p) + ['\n']) && (i > 0 ==> s.text[i - 1] == '\n')
    ensures i < |s.text| && NextTile(s, tokens, [], i) == Some(TileOf(p, i)) && NextContext(s, [], TileOf(p, i)) == []
  {
    hide NextTile, At, Quoted;
    match p
    case Name(text) => NameComesNext(s, tokens, i, text);
    case Literal(body) => LiteralComesNext(s, tokens, i, body);
    case Mark(c) => MarkComesNext(s, tokens, i, c);
    case LineNote(body) => LineNoteComesNext(s, tokens, i, body);
    case BlockNote(body) => BlockNoteComesNext(s, tokens, i, body);
  }

  /** A source written from pieces is read as just those pieces, in both languages, with blanks
      between them: each name, literal, mark and comment is one tile, whatever is in it. */
  lemma {:induction false} WrittenIsRead(s: Source, tokens: seq<Token>, pieces: seq<Piece>, i: nat)
    requires Sane(s.cls) && AllPieces(s.cls, pieces) && IsWrittenFrom(s.text, i, pieces)
    ensures TilesFrom(s, tokens, [], i) == TilesOf(pieces, i)
    decreases |pieces|
  {
    hide IsWrittenFrom, AllPieces, At, NextTile, NextContext, IsPiece, Written, TileOf, TilesOf, TokenOf, Sane, TilesFrom;
    if pieces == [] {
      NothingWritten(s, tokens, i);
    } else {
      var p, rest := pieces[0], pieces[1..];
      var e := i + |Written(p)|;
      FirstStands(s.text, i, pieces);
      TilesOfCons(pieces, i);
      FirstIsPiece(s.cls, pieces);
      PieceComesNext(s, tokens, i, p);
      TileOfPiece(p, i);
      var more := tokens + TokenOf(s, TileOf(p, i));
      WrittenIsRead(s, more, rest, e + 1);
      PieceThenBlank(s, tokens, TileOf(p, i), e);
    }
  }

  lemma NothingWritten(s: Source, tokens: seq<Token>, i: nat)
    requires IsWrittenFrom(s.text, i, [])
    ensures i == |s.text| && TilesFrom(s, tokens, [], i) == [] == TilesOf([], i)
  {
    assert |s.text[i..]| == 0;
  }

  ghost predicate AllPieces(cls: CharClass, pieces: seq<Piece>) {
    forall p :: p in pieces ==> IsPiece(cls, p)
  }

  lemma FirstIsPiece(cls: CharClass, pieces: seq<Piece>)
    requires AllPieces(cls, pieces) && pieces != []
    ensures IsPiece(cls, pieces[0]) && AllPieces(cls, pieces[1..])
  {
    hide IsPiece;
  }

  /** From a line's start at `i` on, the text is those pieces. */
  predicate IsWrittenFrom(text: string, i: nat, pieces: seq<Piece>) {
    i <= |text| && text[i..] == AllWritten(pieces) && (i > 0 ==> text[i - 1] == '\n')
  }

  lemma FirstStands(text: string, i: nat, pieces: seq<Piece>)
    requires IsWrittenFrom(text, i, pieces) && pieces != []
    ensures
      var e := i + |Written(pieces[0])|;
      && At(text, i, Written(pieces[0]) + ['\n']) && (i > 0 ==> text[i - 1] == '\n')
      && e < |text| && text[e] == '\n' && IsWrittenFrom(text, e + 1, pieces[1..])
  {
    hide Written;
    PieceStands(text, i, Written(pieces[0]), AllWritten(pieces[1..]));
  }

  lemma PieceThenBlank(s: Source, tokens: seq<Token>, t: Tile, e: nat)
    requires t.start <= t.end == e < |s.text| && Blank(s.text[e])
    requires NextTile(s, tokens, [], t.start) == Some(t) && NextContext(s, [], t) == []
    ensures
      var more := tokens + TokenOf(s, t);
      TilesFrom(s, tokens, [], t.start) == [t, Space(e, e + 1)] + TilesFrom(s, more, [], e + 1)
  {
    var more := tokens + TokenOf(s, t);
    BlankComesNext(s, more, [], e);
    hide NextTile, NextContext;
    assert more + TokenOf(s, Space(e, e + 1)) == more;
    assert TilesFrom(s, more, [], e) == [Space(e, e + 1)] + TilesFrom(s, more, [], e + 1);
    assert TilesFrom(s, tokens, [], t.start) == [t] + TilesFrom(s, more, [], e);
  }

  lemma TilesOfCons(pieces: seq<Piece>, i: nat)
    requires pieces != []
    ensures
      var e := i + |Written(pieces[0])|;
      TilesOf(pieces, i) == [TileOf(pieces[0], i), Space(e, e + 1)] + TilesOf(pieces[1..], e + 1)
  {
    hide Written, TileOf;
  }

  lemma TileOfPiece(p: Piece, i: nat)
    ensures TileOf(p, i).start == i && TileOf(p, i).end == i + |Written(p)|
  {
  }

  lemma PieceStands(s: string, i: nat, text: string, rest: string)
    requires i <= |s| && s[i..] == text + ['\n'] + rest
    ensures At(s, i, text + ['\n']) && i + |text| < |s| && s[i + |text|] == '\n' && s[i + |text| + 1..] == rest
  {
    assert s[i..i + |text| + 1] == s[i..][..|text| + 1];
    assert s[i + |text| + 1..] == s[i..][|text| + 1..];
    assert s[i + |text|] == s[i..][|text|];
  }

  function WithoutNotes(pieces: seq<Piece>): seq<Piece> {
    if pieces == [] then []
    else (if pieces[0].LineNote? || pieces[0].BlockNote? then [] else [pieces[0]]) + WithoutNotes(pieces[1..])
  }

  function PieceTokens(pieces: seq<Piece>): seq<Token> {
    if pieces == [] then []
    else
      (match pieces[0]
       case Name(text) => [Token(Word, text)]
       case Literal(body) => [Token(Str, Quoted(body, '"'))]
       case Mark(c) => [Token(Punct, [c])]
       case _ => [])
      + PieceTokens(pieces[1..])
  }

  lemma {:induction false} TokensOfTiles(s: Source, pieces: seq<Piece>, i: nat)
    requires IsWrittenFrom(s.text, i, pieces)
    ensures TokensOf(s, TilesOf(pieces, i)) == PieceTokens(pieces)
    decreases |pieces|
  {
    hide IsWrittenFrom, At, Written, TileOf, TokenOf, Quoted;
    if pieces != [] {
      var p := pieces[0];
      var e := i + |Written(p)|;
      FirstStands(s.text, i, pieces);
      WrittenStands(s.text, i, Written(p));
      OfPiece(s, p, i, e);
      TilesOfCons(pieces, i);
      hide TilesOf, TokensOf, PieceTokens;
      TokensOfTiles(s, pieces[1..], e + 1);
      TokensCons(s, TileOf(p, i), Space(e, e + 1), TilesOf(pieces[1..], e + 1));
      SpaceIsNoToken(s, e);
      TokensOfCons(pieces);
    }
  }

  lemma SpaceIsNoToken(s: Source, e: nat)
    ensures TokenOf(s, Space(e, e + 1)) == []
  {
  }

  lemma WrittenStands(text: string, i: nat, written: string)
    requires At(text, i, written + ['\n'])
    ensures i + |written| <= |text| && text[i..i + |written|] == written
  {
    StandsLater(text, i, written, ['\n']);
  }

  lemma TokensCons(s: Source, t: Tile, u: Tile, tail: seq<Tile>)
    ensures TokensOf(s, [t, u] + tail) == TokenOf(s, t) + (TokenOf(s, u) + TokensOf(s, tail))
  {
    hide TokenOf;
    var tiles := [t, u] + tail;
    assert tiles[1..] == [u] + tail && tiles[1..][1..] == tail;
  }

  lemma TokensOfCons(pieces: seq<Piece>)
    requires pieces != []
    ensures PieceTokens(pieces) == PieceTokens([pieces[0]]) + PieceTokens(pieces[1..])
  {
    assert [pieces[0]][1..] == [];
    assert PieceTokens([]) == [];
  }

  lemma OfPiece(s: Source, p: Piece, i: nat, e: nat)
    requires i <= e <= |s.text| && e == i + |Written(p)| && s.text[i..e] == Written(p)
    ensures TokenOf(s, TileOf(p, i)) == PieceTokens([p])
  {
    assert [p][1..] == [];
    assert PieceTokens([]) == [];
  }

  /** The tokens of a written source are those of the same source without its comments. */
  lemma NotesAreNoTokens(s: Source, t: Source, pieces: seq<Piece>)
    requires Sane(s.cls) && t.cls == s.cls && t.lang == s.lang && AllPieces(s.cls, pieces)
    requires s.text == AllWritten(pieces) && t.text == AllWritten(WithoutNotes(pieces))
    ensures TokensOf(s, Lexing(s)) == TokensOf(t, Lexing(t)) == PieceTokens(pieces)
    ensures CommentsOf(Lexing(t)) == []
  {
    NotesGone(s.cls, pieces);
    assert s.text[0..] == s.text && t.text[0..] == t.text;
    WrittenIsRead(s, [], pieces, 0);
    WrittenIsRead(t, [], WithoutNotes(pieces), 0);
    TokensOfTiles(s, pieces, 0);
    TokensOfTiles(t, WithoutNotes(pieces), 0);
    NoNoteNoComment(WithoutNotes(pieces), 0);
  }

  lemma {:induction false} NotesGone(cls: CharClass, pieces: seq<Piece>)
    requires AllPieces(cls, pieces)
    ensures AllPieces(cls, WithoutNotes(pieces))
    ensures forall p :: p in WithoutNotes(pieces) ==> !p.LineNote? && !p.BlockNote?
    ensures PieceTokens(WithoutNotes(pieces)) == PieceTokens(pieces)
    decreases |pieces|
  {
    hide IsPiece, Quoted;
    if pieces != [] {
      hide PieceTokens;
      var p, rest := pieces[0], WithoutNotes(pieces[1..]);
      NotesGone(cls, pieces[1..]);
      TokensOfCons(pieces);
      if p.LineNote? || p.BlockNote? {
        NoteIsNoToken(p);
        assert WithoutNotes(pieces) == rest;
        assert PieceTokens(pieces) == PieceTokens(pieces[1..]);
      } else {
        assert ([p] + rest)[1..] == rest;
        TokensOfCons([p] + rest);
      }
    }
  }

  lemma NoteIsNoToken(p: Piece)
    requires p.LineNote? || p.BlockNote?
    ensures PieceTokens([p]) == []
  {
    assert [p][1..] == [];
    assert PieceTokens([]) == [];
  }

  lemma {:induction false} NoNoteNoComment(pieces: seq<Piece>, i: nat)
    requires forall p :: p in pieces ==> !p.LineNote? && !p.BlockNote?
    ensures CommentsOf(TilesOf(pieces, i)) == []
    decreases |pieces|
  {
    hide TileOf, Written;
    if pieces != [] {
      var e := i + |Written(pieces[0])|;
      TilesOfCons(pieces, i);
      NoNoteNoRemark(pieces[0], i);
      hide TilesOf, CommentsOf;
      NoNoteNoComment(pieces[1..], e + 1);
      CommentsCons(TileOf(pieces[0], i), Space(e, e + 1), TilesOf(pieces[1..], e + 1));
    }
  }

  lemma NoNoteNoRemark(p: Piece, i: nat)
    requires !p.LineNote? && !p.BlockNote?
    ensures CommentIn(TileOf(p, i)) == []
  {
  }

  lemma CommentsCons(t: Tile, u: Tile, tail: seq<Tile>)
    ensures CommentsOf([t, u] + tail) == CommentIn(t) + (CommentIn(u) + CommentsOf(tail))
  {
    hide CommentIn;
    var tiles := [t, u] + tail;
    assert tiles[1..] == [u] + tail && tiles[1..][1..] == tail;
  }
}
