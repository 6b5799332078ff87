/** TypeScript sources with template literals and braces nested in one another, written and read
    back by the lexer of scripts/eval-comments/strip_comments.py. */
module TemplateSources {
  import opened Sequences
  import opened Wrappers
  import opened Strings
  import opened Lexemes
  import opened CommentLexer
  import opened LexemeEnds
  import opened LexedShapes
  import opened WrittenSources

  /** Code, line by line: pieces, blocks in braces, and template literals, whose substitutions
      hold code again. */
  datatype Code = Empty | Row(p: Piece, rest: Code) | Braced(inner: Code, rest: Code) | Templ(body: Body, rest: Code)

  datatype Body = Last(chunk: string) | Subst(chunk: string, inner: Code, more: Body)

  /** A chunk as it stands in a template: backticks, dollar signs and backslashes are escaped. */
  function EscapeChunk(u: string): string {
    if u == "" then ""
    else (if u[0] == '\\' || u[0] == '`' || u[0] == '$' then ['\\', u[0]] else [u[0]]) + EscapeChunk(u[1..])
  }

  function WrittenCode(c: Code): string {
    match c
    case Empty => ""
    case Row(p, rest) => Written(p) + ['\n'] + WrittenCode(rest)
    case Braced(inner, rest) => ['{', '\n'] + WrittenCode(inner) + ['}', '\n'] + WrittenCode(rest)
    case Templ(body, rest) => ['`'] + WrittenBody(body) + ['\n'] + WrittenCode(rest)
  }

  function WrittenBody(b: Body): string {
    match b
    case Last(u) => EscapeChunk(u) + ['`']
    case Subst(u, inner, more) => EscapeChunk(u) + ['$', '{', '\n'] + WrittenCode(inner) + ['}'] + WrittenBody(more)
  }

  predicate IsCode(cls: CharClass, c: Code) {
    match c
    case Empty => true
    case Row(p, rest) => IsPiece(cls, p) && p != Mark('{') && p != Mark('}') && IsCode(cls, rest)
    case Braced(inner, rest) => IsCode(cls, inner) && IsCode(cls, rest)
    case Templ(body, rest) => IsBody(cls, body) && IsCode(cls, rest)
  }

  predicate IsBody(cls: CharClass, b: Body) {
    match b
    case Last(_) => true
    case Subst(_, inner, more) => IsCode(cls, inner) && IsBody(cls, more)
  }

  /** The tokens of code. A template gives one for each chunk, the first with its backtick and
      the last with its own; what is in a substitution comes between. */
  function CodeTokens(c: Code): seq<Token> {
    match c
    case Empty => []
    case Row(p, rest) => PieceTokens([p]) + CodeTokens(rest)
    case Braced(inner, rest) =>
      [Token(Punct, ['{'])] + CodeTokens(inner) + [Token(Punct, ['}'])] + CodeTokens(rest)
    case Templ(body, rest) => BodyTokens(body, ['`']) + CodeTokens(rest)
  }

  function BodyTokens(b: Body, head: string): seq<Token> {
    match b
    case Last(u) => [Token(Template, head + EscapeChunk(u) + ['`'])]
    case Subst(u, inner, more) =>
      [Token(Template, head + EscapeChunk(u))] + CodeTokens(inner) + BodyTokens(more, [])
  }

  /** The comments, where they stand. */
  function CodeNotes(c: Code, i: nat): seq<Comment> {
    match c
    case Empty => []
    case Row(p, rest) => CommentIn(TileOf(p, i)) + CodeNotes(rest, i + |Written(p)| + 1)
    case Braced(inner, rest) => CodeNotes(inner, i + 2) + CodeNotes(rest, i + 2 + |WrittenCode(inner)| + 2)
    case Templ(body, rest) => BodyNotes(body, i + 1) + CodeNotes(rest, i + 1 + |WrittenBody(body)| + 1)
  }

  function BodyNotes(b: Body, i: nat): seq<Comment> {
    match b
    case Last(_) => []
    case Subst(u, inner, more) =>
      CodeNotes(inner, i + |EscapeChunk(u)| + 3) + BodyNotes(more, i + |EscapeChunk(u)| + 3 + |WrittenCode(inner)| + 1)
  }

  // ---- Reading on ----

  /** From `i` in that context the source is read as these tiles, up to `j` in the other one. */
  ghost predicate Reads(s: Source, tokens: seq<Token>, ctx: Context, i: nat, tiles: seq<Tile>, after: Context, j: nat) {
    && i <= |s.text| && j <= |s.text|
    && TilesFrom(s, tokens, ctx, i) == tiles + TilesFrom(s, tokens + TokensOf(s, tiles), after, j)
  }

  lemma ReadsNothing(s: Source, tokens: seq<Token>, ctx: Context, i: nat)
    requires i <= |s.text|
    ensures Reads(s, tokens, ctx, i, [], ctx, i)
  {
    hide TilesFrom;
    assert tokens + TokensOf(s, []) == tokens;
    assert [] + TilesFrom(s, tokens, ctx, i) == TilesFrom(s, tokens, ctx, i);
  }

  lemma ReadsOne(s: Source, tokens: seq<Token>, ctx: Context, i: nat, t: Tile)
    requires i <= |s.text| && NextTile(s, tokens, ctx, i) == Some(t)
    ensures Reads(s, tokens, ctx, i, [t], NextContext(s, ctx, t), t.end)
    ensures TokensOf(s, [t]) == TokenOf(s, t) && CommentsOf([t]) == CommentIn(t)
  {
    hide NextTile, NextContext, TokenOf, CommentIn;
    assert [t][1..] == [];
    assert TokensOf(s, []) == [] && CommentsOf([]) == [];
    assert TokensOf(s, [t]) == TokenOf(s, t) + [] == TokenOf(s, t);
    assert TilesFrom(s, tokens, ctx, i) == [t] + TilesFrom(s, tokens + TokenOf(s, t), NextContext(s, ctx, t), t.end);
  }

  lemma {:induction false} TokensOfConcat(s: Source, a: seq<Tile>, b: seq<Tile>)
    ensures TokensOf(s, a + b) == TokensOf(s, a) + TokensOf(s, b)
    ensures CommentsOf(a + b) == CommentsOf(a) + CommentsOf(b)
    decreases |a|
  {
    hide TokenOf, CommentIn;
    if a == [] {
      assert a + b == b;
    } else {
      var rest := a[1..];
      assert (a + b)[1..] == rest + b && (a + b)[0] == a[0];
      assert TokensOf(s, a + b) == TokenOf(s, a[0]) + TokensOf(s, rest + b);
      assert CommentsOf(a + b) == CommentIn(a[0]) + CommentsOf(rest + b);
      assert TokensOf(s, a) == TokenOf(s, a[0]) + TokensOf(s, rest) && CommentsOf(a) == CommentIn(a[0]) + CommentsOf(rest);
      hide TokensOf, CommentsOf;
      TokensOfConcat(s, rest, b);
      Associate(TokenOf(s, a[0]), TokensOf(s, rest), TokensOf(s, b));
      Associate(CommentIn(a[0]), CommentsOf(rest), CommentsOf(b));
    }
  }

  lemma ReadsThen(s: Source, tokens: seq<Token>, ctx: Context, i: nat, a: seq<Tile>, mid: Context, j: nat, b: seq<Tile>,
                  after: Context, k: nat)
    requires Reads(s, tokens, ctx, i, a, mid, j) && Reads(s, tokens + TokensOf(s, a), mid, j, b, after, k)
    ensures Reads(s, tokens, ctx, i, a + b, after, k)
    ensures TokensOf(s, a + b) == TokensOf(s, a) + TokensOf(s, b)
    ensures CommentsOf(a + b) == CommentsOf(a) + CommentsOf(b)
  {
    hide TilesFrom;
    TokensOfConcat(s, a, b);
    hide TokensOf, CommentsOf;
    var ta, tb := TokensOf(s, a), TokensOf(s, b);
    Associate(tokens, ta, tb);
    Associate(a, b, TilesFrom(s, tokens + ta + tb, after, k));
  }

  // ---- One tile at a time ----

  lemma BlankReads(s: Source, tokens: seq<Token>, ctx: Context, i: nat)
    requires i < |s.text| && s.text[i] == '\n' && InCode(ctx)
    ensures Reads(s, tokens, ctx, i, [Space(i, i + 1)], ctx, i + 1)
    ensures TokensOf(s, [Space(i, i + 1)]) == [] && CommentsOf([Space(i, i + 1)]) == []
  {
    hide NextTile, NextContext, TilesFrom, Reads;
    BlankComesNext(s, tokens, ctx, i);
    ReadsOne(s, tokens, ctx, i, Space(i, i + 1));
  }

  lemma FirstIsNoBrace(cls: CharClass, p: Piece)
    requires Sane(cls) && IsPiece(cls, p) && p != Mark('{') && p != Mark('}')
    ensures Written(p) != "" && Written(p)[0] != '{' && Written(p)[0] != '}'
  {
  }

  /** A tile of code is the same in any context, when it opens and closes no brace. */
  lemma SameInCode(s: Source, tokens: seq<Token>, ctx: Context, i: nat, t: Tile)
    requires i < |s.text| && InCode(ctx) && NextTile(s, tokens, [], i) == Some(t) && t.start == i
    requires s.text[i] != '{' && s.text[i] != '}' && !(t.Lexeme? && t.token == Template) && !t.Delimiter?
    ensures NextTile(s, tokens, ctx, i) == Some(t) && NextContext(s, ctx, t) == ctx
  {
    hide CodeTile, StartsCode, StartOf;
  }

  lemma PieceReads(s: Source, tokens: seq<Token>, ctx: Context, i: nat, p: Piece)
    requires Sane(s.cls) && IsPiece(s.cls, p) && p != Mark('{') && p != Mark('}') && InCode(ctx)
    requires At(s.text, i, Written(p) + ['\n']) && (0 < i <= |s.text| ==> s.text[i - 1] == '\n')
    ensures Reads(s, tokens, ctx, i, [TileOf(p, i)], ctx, i + |Written(p)|)
    ensures TokensOf(s, [TileOf(p, i)]) == PieceTokens([p]) && CommentsOf([TileOf(p, i)]) == CommentIn(TileOf(p, i))
  {
    var e := i + |Written(p)|;
    PieceIsHere(s, i, p);
    FirstIsNoBrace(s.cls, p);
    PieceComesNext(s, tokens, i, p);
    TileOfPiece(p, i);
    OfPiece(s, p, i, e);
    PieceTileIsPlain(p, i);
    hide NextTile, NextContext, Written, TileOf, IsPiece, PieceTokens, At;
    SameInCode(s, tokens, ctx, i, TileOf(p, i));
    ReadsOne(s, tokens, ctx, i, TileOf(p, i));
  }

  lemma PieceIsHere(s: Source, i: nat, p: Piece)
    requires At(s.text, i, Written(p) + ['\n'])
    ensures i + |Written(p)| < |s.text| && s.text[i..i + |Written(p)|] == Written(p)
    ensures s.text[i + |Written(p)|] == '\n' && (Written(p) != "" ==> s.text[i] == Written(p)[0])
  {
    hide Written;
    var text := Written(p) + ['\n'];
    assert s.text[i..i + |text|] == text;
    assert s.text[i..i + |Written(p)|] == text[..|Written(p)|];
    assert s.text[i + |Written(p)|] == text[|Written(p)|];
    if Written(p) != "" {
      assert s.text[i] == text[0];
    }
  }

  lemma PieceTileIsPlain(p: Piece, i: nat)
    ensures !(TileOf(p, i).Lexeme? && TileOf(p, i).token == Template) && !TileOf(p, i).Delimiter?
  {
  }

  /** A context one brace deeper. */
  function Deeper(ctx: Context): Context
    requires InCode(ctx)
  {
    if ctx == [] then ctx else Leave(ctx) + [Inside(ctx[|ctx| - 1].depth + 1)]
  }

  lemma BraceComesNext(s: Source, tokens: seq<Token>, i: nat, c: char)
    requires Sane(s.cls) && s.lang == TypeScript && i < |s.text| && s.text[i] == c && (c == '{' || c == '}')
    ensures StartsCode(s, i) && StartOf(s, tokens, i) == Other
    ensures CodeTile(s, tokens, i) == Lexeme(i, i + 1, Punct, false)
  {
    SlashesStand(s.text, i);
    MarksStand(s.text, i);
    hide At;
  }

  lemma OpeningReads(s: Source, tokens: seq<Token>, ctx: Context, i: nat)
    requires Sane(s.cls) && s.lang == TypeScript && i < |s.text| && s.text[i] == '{' && InCode(ctx)
    ensures Reads(s, tokens, ctx, i, [Lexeme(i, i + 1, Punct, false)], Deeper(ctx), i + 1)
    ensures TokensOf(s, [Lexeme(i, i + 1, Punct, false)]) == [Token(Punct, ['{'])]
    ensures CommentsOf([Lexeme(i, i + 1, Punct, false)]) == []
  {
    BraceComesNext(s, tokens, i, '{');
    hide CodeTile, StartsCode, StartOf;
    var t := Lexeme(i, i + 1, Punct, false);
    assert NextTile(s, tokens, ctx, i) == Some(t) && NextContext(s, ctx, t) == Deeper(ctx);
    hide NextTile, NextContext;
    ReadsOne(s, tokens, ctx, i, t);
    assert s.text[i..i + 1] == ['{'];
  }

  lemma ClosingReads(s: Source, tokens: seq<Token>, ctx: Context, i: nat)
    requires Sane(s.cls) && s.lang == TypeScript && i < |s.text| && s.text[i] == '}' && InCode(ctx)
    ensures Reads(s, tokens, Deeper(ctx), i, [Lexeme(i, i + 1, Punct, false)], ctx, i + 1)
    ensures TokensOf(s, [Lexeme(i, i + 1, Punct, false)]) == [Token(Punct, ['}'])]
    ensures CommentsOf([Lexeme(i, i + 1, Punct, false)]) == []
  {
    hide NextTile, NextContext, TilesFrom, Reads, Deeper, InCode;
    var t := Lexeme(i, i + 1, Punct, false);
    ClosingComesNext(s, tokens, ctx, i);
    ReadsOne(s, tokens, Deeper(ctx), i, t);
    assert s.text[i..i + 1] == ['}'];
  }

  lemma ClosingComesNext(s: Source, tokens: seq<Token>, ctx: Context, i: nat)
    requires Sane(s.cls) && s.lang == TypeScript && i < |s.text| && s.text[i] == '}' && InCode(ctx)
    ensures
      var t := Lexeme(i, i + 1, Punct, false);
      NextTile(s, tokens, Deeper(ctx), i) == Some(t) && NextContext(s, Deeper(ctx), t) == ctx
  {
    BraceComesNext(s, tokens, i, '}');
    hide CodeTile, StartsCode, StartOf;
    if ctx != [] {
      assert Leave(Deeper(ctx)) == Leave(ctx) && Leave(ctx) + [ctx[|ctx| - 1]] == ctx;
    }
  }

  /** The opener of a substitution, and the brace that closes it. */
  lemma SubstitutionOpens(s: Source, tokens: seq<Token>, outer: Context, i: nat)
    requires At(s.text, i, ['$', '{'])
    ensures i + 2 <= |s.text| && Reads(s, tokens, outer + [Opening], i, [Delimiter(i, i + 2)], outer + [Inside(0)], i + 2)
    ensures TokensOf(s, [Delimiter(i, i + 2)]) == [] && CommentsOf([Delimiter(i, i + 2)]) == []
  {
    var ctx := outer + [Opening];
    assert "${" == ['$', '{'];
    assert Leave(ctx) == outer;
    ReadsOne(s, tokens, ctx, i, Delimiter(i, i + 2));
  }

  lemma SubstitutionCloses(s: Source, tokens: seq<Token>, outer: Context, i: nat)
    requires Sane(s.cls) && s.lang == TypeScript && i < |s.text| && s.text[i] == '}'
    ensures Reads(s, tokens, outer + [Inside(0)], i, [Delimiter(i, i + 1)], outer + [Resuming], i + 1)
    ensures TokensOf(s, [Delimiter(i, i + 1)]) == [] && CommentsOf([Delimiter(i, i + 1)]) == []
  {
    var ctx := outer + [Inside(0)];
    BraceComesNext(s, tokens, i, '}');
    hide CodeTile, StartsCode, StartOf;
    assert Leave(ctx) == outer;
    ReadsOne(s, tokens, ctx, i, Delimiter(i, i + 1));
  }

  /** A chunk ends where its own backtick or the opener after it stands. */
  lemma {:induction false} ChunkStops(s: string, i: nat, u: string, next: string)
    requires At(s, i, EscapeChunk(u) + next) && (next == ['`'] || next == ['$', '{'])
    ensures
      var e := i + |EscapeChunk(u)|;
      && e < |s|
      && ChunkEnd(s, i) == (if next == ['`'] then e + 1 else e)
      && ChunkStop(s, i) == (if next == ['`'] then Closed else Opens)
    decreases |u|
  {
    hide At;
    if u == "" {
      assert EscapeChunk(u) + next == next;
      NextStands(s, i, next);
      OpenerStands(s, i);
    } else {
      var head := if u[0] == '\\' || u[0] == '`' || u[0] == '$' then ['\\', u[0]] else [u[0]];
      var rest := EscapeChunk(u[1..]) + next;
      assert EscapeChunk(u) + next == head + rest;
      StandsLater(s, i, head, rest);
      NextStands(s, i, head);
      OpenerStands(s, i);
      ChunkStops(s, i + |head|, u[1..], next);
    }
  }

  lemma NextStands(s: string, i: nat, next: string)
    requires At(s, i, next) && next != ""
    ensures i < |s| && s[i] == next[0] && (|next| == 2 ==> i + 1 < |s| && s[i + 1] == next[1])
  {
    assert s[i..i + |next|][0] == s[i];
    if |next| == 2 {
      assert s[i..i + |next|][1] == s[i + 1];
    }
  }

  lemma ChunkReads(s: Source, tokens: seq<Token>, outer: Context, ctx: Context, start: nat, i: nat, u: string, next: string)
    requires AtChunk(s, tokens, outer, ctx, start, i) && start <= i <= |s.text|
    requires At(s.text, i, EscapeChunk(u) + next) && (next == ['`'] || next == ['$', '{'])
    ensures
      var e := i + |EscapeChunk(u)| + if next == ['`'] then 1 else 0;
      var t := Lexeme(start, e, Template, i == start + 1);
      && e <= |s.text|
      && Reads(s, tokens, ctx, start, [t], if next == ['`'] then outer else outer + [Opening], e)
      && TokensOf(s, [t])
         == [Token(Template, s.text[start..i] + EscapeChunk(u) + if next == ['`'] then ['`'] else [])]
      && CommentsOf([t]) == []
  {
    hide NextTile, NextContext, AtChunk, At, EscapeChunk, ChunkEnd, ChunkStop, TilesFrom, Reads;
    ChunkComesNext(s, tokens, outer, ctx, start, i);
    ChunkStops(s.text, i, u, next);
    var e := i + |EscapeChunk(u)| + if next == ['`'] then 1 else 0;
    var t := Lexeme(start, e, Template, i == start + 1);
    ReadsOne(s, tokens, ctx, start, t);
    ChunkText(s.text, start, i, e, u, next);
  }

  lemma ChunkText(s: string, start: nat, i: nat, e: nat, u: string, next: string)
    requires start <= i <= e <= |s| && At(s, i, EscapeChunk(u) + next)
    requires e == i + |EscapeChunk(u)| + if next == ['`'] then 1 else 0
    requires next == ['`'] || next == ['$', '{']
    ensures s[start..e] == s[start..i] + EscapeChunk(u) + if next == ['`'] then ['`'] else []
  {
    var text := EscapeChunk(u) + next;
    assert s[i..i + |text|] == text;
    assert s[i..e] == text[..e - i];
    assert s[start..e] == s[start..i] + s[i..e];
  }

  // ---- All of it ----

  /** Read as tiles with just these tokens and these comments. */
  ghost predicate ReadAs(s: Source, tokens: seq<Token>, ctx: Context, i: nat, tiles: seq<Tile>, after: Context, j: nat,
                         read: seq<Token>, notes: seq<Comment>) {
    Reads(s, tokens, ctx, i, tiles, after, j) && TokensOf(s, tiles) == read && CommentsOf(tiles) == notes
  }

  lemma AndThen(s: Source, tokens: seq<Token>, ctx: Context, i: nat, a: seq<Tile>, mid: Context, j: nat, ta: seq<Token>,
                na: seq<Comment>, b: seq<Tile>, after: Context, k: nat, tb: seq<Token>, nb: seq<Comment>)
    requires ReadAs(s, tokens, ctx, i, a, mid, j, ta, na) && ReadAs(s, tokens + ta, mid, j, b, after, k, tb, nb)
    ensures ReadAs(s, tokens, ctx, i, a + b, after, k, ta + tb, na + nb)
  {
    hide Reads, TokensOf, CommentsOf;
    ReadsThen(s, tokens, ctx, i, a, mid, j, b, after, k);
  }

  lemma ThenBlank(s: Source, tokens: seq<Token>, ctx: Context, i: nat, a: seq<Tile>, mid: Context, j: nat, ta: seq<Token>,
                  na: seq<Comment>)
    requires ReadAs(s, tokens, ctx, i, a, mid, j, ta, na) && InCode(mid) && j < |s.text| && s.text[j] == '\n'
    ensures ReadAs(s, tokens, ctx, i, a + [Space(j, j + 1)], mid, j + 1, ta, na)
  {
    hide Reads, TokensOf, CommentsOf;
    BlankReads(s, tokens + ta, mid, j);
    AndThen(s, tokens, ctx, i, a, mid, j, ta, na, [Space(j, j + 1)], mid, j + 1, [], []);
    assert ta + [] == ta && na + [] == na;
  }

  lemma CharStands(t: string, i: nat, text: string, k: nat)
    requires At(t, i, text) && k < |text|
    ensures i + k < |t| && t[i + k] == text[k]
  {
    assert t[i..i + |text|][k] == t[i + k];
  }

  lemma LineParts(t: string, i: nat, p: Piece, rest: Code)
    requires At(t, i, WrittenCode(Row(p, rest)))
    ensures At(t, i, Written(p) + ['\n']) && At(t, i + |Written(p)| + 1, WrittenCode(rest))
    ensures |WrittenCode(Row(p, rest))| == |Written(p)| + 1 + |WrittenCode(rest)|
    ensures i + |Written(p)| < |t| && t[i + |Written(p)|] == '\n'
  {
    hide Written;
    StandsLater(t, i, Written(p) + ['\n'], WrittenCode(rest));
    CharStands(t, i, Written(p) + ['\n'], |Written(p)|);
  }

  lemma BracedParts(t: string, i: nat, inner: Code, rest: Code)
    requires At(t, i, WrittenCode(Braced(inner, rest)))
    ensures
      var k := i + 2 + |WrittenCode(inner)|;
      && k + 1 < |t| && t[i] == '{' && t[i + 1] == '\n' && At(t, i + 2, WrittenCode(inner))
      && t[k] == '}' && t[k + 1] == '\n' && At(t, k + 2, WrittenCode(rest))
      && |WrittenCode(Braced(inner, rest))| == 2 + |WrittenCode(inner)| + 2 + |WrittenCode(rest)|
  {
    var a, b := WrittenCode(inner), WrittenCode(rest);
    BracedShape(inner, rest);
    hide WrittenCode, At;
    FourParts(t, i, ['{', '\n'], a, ['}', '\n'], b);
    TwoStand(t, i, '{', '\n');
    TwoStand(t, i + 2 + |a|, '}', '\n');
  }

  lemma BracedShape(inner: Code, rest: Code)
    ensures WrittenCode(Braced(inner, rest)) == ['{', '\n'] + WrittenCode(inner) + ['}', '\n'] + WrittenCode(rest)
    ensures |WrittenCode(Braced(inner, rest))| == 2 + |WrittenCode(inner)| + 2 + |WrittenCode(rest)|
  {
  }

  lemma OneStands(t: string, i: nat, c: char)
    requires At(t, i, [c])
    ensures i < |t| && t[i] == c
  {
    CharStands(t, i, [c], 0);
  }

  lemma TwoStand(t: string, i: nat, c: char, d: char)
    requires At(t, i, [c, d])
    ensures i + 1 < |t| && t[i] == c && t[i + 1] == d
  {
    CharStands(t, i, [c, d], 0);
    CharStands(t, i, [c, d], 1);
  }

  lemma FourParts(t: string, i: nat, a: string, b: string, c: string, d: string)
    requires At(t, i, a + b + c + d)
    ensures At(t, i, a) && At(t, i + |a|, b) && At(t, i + |a| + |b|, c) && At(t, i + |a| + |b| + |c|, d)
  {
    hide At;
    StandsLater(t, i, a + b + c, d);
    StandsLater(t, i, a + b, c);
    StandsLater(t, i, a, b);
  }

  lemma TemplParts(t: string, i: nat, body: Body, rest: Code)
    requires At(t, i, WrittenCode(Templ(body, rest)))
    ensures
      var k := i + 1 + |WrittenBody(body)|;
      && k < |t| && t[i] == '`' && At(t, i + 1, WrittenBody(body)) && t[k] == '\n' && At(t, k + 1, WrittenCode(rest))
      && |WrittenCode(Templ(body, rest))| == 1 + |WrittenBody(body)| + 1 + |WrittenCode(rest)|
  {
    var a, b := WrittenBody(body), WrittenCode(rest);
    TemplShape(body, rest);
    hide WrittenBody, WrittenCode, At;
    FourParts(t, i, ['`'], a, ['\n'], b);
    OneStands(t, i, '`');
    OneStands(t, i + 1 + |a|, '\n');
  }

  lemma TemplShape(body: Body, rest: Code)
    ensures WrittenCode(Templ(body, rest)) == ['`'] + WrittenBody(body) + ['\n'] + WrittenCode(rest)
    ensures |WrittenCode(Templ(body, rest))| == 1 + |WrittenBody(body)| + 1 + |WrittenCode(rest)|
  {
    hide WrittenBody;
  }

  lemma SubstParts(t: string, i: nat, u: string, inner: Code, more: Body)
    requires At(t, i, WrittenBody(Subst(u, inner, more)))
    ensures
      var e := i + |EscapeChunk(u)|;
      var k := e + 3 + |WrittenCode(inner)|;
      && k < |t| && At(t, i, EscapeChunk(u) + ['$', '{']) && At(t, e, ['$', '{']) && t[e + 2] == '\n'
      && At(t, e + 3, WrittenCode(inner)) && t[k] == '}' && At(t, k + 1, WrittenBody(more))
      && |WrittenBody(Subst(u, inner, more))| == |EscapeChunk(u)| + 3 + |WrittenCode(inner)| + 1 + |WrittenBody(more)|
  {
    SubstShape(u, inner, more);
    hide WrittenBody, WrittenCode, EscapeChunk;
    SubstStands(t, i, EscapeChunk(u), WrittenCode(inner), WrittenBody(more));
  }

  lemma SubstShape(u: string, inner: Code, more: Body)
    ensures WrittenBody(Subst(u, inner, more))
         == EscapeChunk(u) + ['$', '{', '\n'] + WrittenCode(inner) + ['}'] + WrittenBody(more)
    ensures |WrittenBody(Subst(u, inner, more))|
         == |EscapeChunk(u)| + 3 + |WrittenCode(inner)| + 1 + |WrittenBody(more)|
  {
    hide EscapeChunk, WrittenCode;
  }

  lemma SubstStands(t: string, i: nat, h: string, a: string, b: string)
    requires At(t, i, h + ['$', '{', '\n'] + a + ['}'] + b)
    ensures
      var (e, k) := (i + |h|, i + |h| + 3 + |a|);
      && k < |t| && At(t, i, h + ['$', '{']) && At(t, e, ['$', '{']) && t[e + 2] == '\n' && At(t, e + 3, a)
      && t[k] == '}' && At(t, k + 1, b)
  {
    hide At;
    StandsLater(t, i, h + ['$', '{', '\n'] + a + ['}'], b);
    FourParts(t, i, h, ['$', '{', '\n'], a, ['}']);
    OneStands(t, i + |h| + 3 + |a|, '}');
    OpenerLine(t, i + |h|);
    StandTogether(t, i, h, ['$', '{']);
  }

  lemma OpenerLine(t: string, e: nat)
    requires At(t, e, ['$', '{', '\n'])
    ensures At(t, e, ['$', '{']) && e + 2 < |t| && t[e + 2] == '\n'
  {
    CharStands(t, e, ['$', '{', '\n'], 2);
    assert ['$', '{', '\n'] == ['$', '{'] + ['\n'];
    StandsLater(t, e, ['$', '{'], ['\n']);
  }

  lemma StandTogether(t: string, i: nat, a: string, b: string)
    requires At(t, i, a) && At(t, i + |a|, b)
    ensures At(t, i, a + b)
  {
    assert t[i..i + |a + b|] == t[i..i + |a|] + t[i + |a|..i + |a| + |b|];
  }

  lemma BacktickIsChunk(s: Source, tokens: seq<Token>, ctx: Context, i: nat)
    requires s.lang == TypeScript && i < |s.text| && s.text[i] == '`' && InCode(ctx)
    ensures AtChunk(s, tokens, ctx, ctx, i, i + 1)
  {
    SlashesStand(s.text, i);
    MarksStand(s.text, i);
    hide At;
  }

  lemma AfterSubstitutionIsChunk(s: Source, tokens: seq<Token>, outer: Context, i: nat)
    requires i <= |s.text|
    ensures AtChunk(s, tokens, outer, outer + [Resuming], i, i)
  {
  }

  /** Code is read as written, in any context of code: its names, literals, marks and comments,
      and its templates with whatever their substitutions hold, braces and templates included. */
  lemma {:induction false} CodeIsRead(s: Source, tokens: seq<Token>, ctx: Context, i: nat, c: Code)
    returns (tiles: seq<Tile>)
    requires Sane(s.cls) && s.lang == TypeScript && InCode(ctx) && IsCode(s.cls, c)
    requires At(s.text, i, WrittenCode(c)) && (i > 0 ==> s.text[i - 1] == '\n')
    ensures ReadAs(s, tokens, ctx, i, tiles, ctx, i + |WrittenCode(c)|, CodeTokens(c), CodeNotes(c, i))
    decreases c
  {
    hide ReadAs, At, WrittenBody, Written, InCode, AtChunk, Deeper, PieceTokens, TileOf, IsPiece, Sane, CommentIn, WrittenCode,
         CodeTokens, CodeNotes, BodyTokens, BodyNotes;
    match c
    case Empty =>
      tiles := [];
      EmptyReads(s, tokens, ctx, i);
    case Row(p, rest) =>
      LineParts(s.text, i, p, rest);
      var e := i + |Written(p)|;
      LineReads(s, tokens, ctx, i, p);
      var more := CodeIsRead(s, tokens + PieceTokens([p]), ctx, e + 1, rest);
      tiles := [TileOf(p, i), Space(e, e + 1)] + more;
      AndThen(s, tokens, ctx, i, [TileOf(p, i), Space(e, e + 1)], ctx, e + 1, PieceTokens([p]), CommentIn(TileOf(p, i)),
        more, ctx, e + 1 + |WrittenCode(rest)|, CodeTokens(rest), CodeNotes(rest, e + 1));
      RowMeans(p, rest, i);
    case Braced(inner, rest) =>
      BracedParts(s.text, i, inner, rest);
      var k := i + 2 + |WrittenCode(inner)|;
      DeeperIsCode(ctx);
      var within := CodeIsRead(s, tokens + [Token(Punct, ['{'])], Deeper(ctx), i + 2, inner);
      var block := BlockReads(s, tokens, ctx, i, k, within, CodeTokens(inner), CodeNotes(inner, i + 2));
      var before := [Token(Punct, ['{'])] + CodeTokens(inner) + [Token(Punct, ['}'])];
      var more := CodeIsRead(s, tokens + before, ctx, k + 2, rest);
      tiles := block + more;
      AndThen(s, tokens, ctx, i, block, ctx, k + 2, before, CodeNotes(inner, i + 2),
        more, ctx, k + 2 + |WrittenCode(rest)|, CodeTokens(rest), CodeNotes(rest, k + 2));
      BracedMeans(inner, rest, i);
    case Templ(body, rest) =>
      TemplParts(s.text, i, body, rest);
      var k := i + 1 + |WrittenBody(body)|;
      BacktickIsChunk(s, tokens, ctx, i);
      var literal := BodyIsRead(s, tokens, ctx, ctx, i, i + 1, body);
      assert s.text[i..i + 1] == ['`'];
      ThenBlank(s, tokens, ctx, i, literal, ctx, k, BodyTokens(body, ['`']), BodyNotes(body, i + 1));
      var more := CodeIsRead(s, tokens + BodyTokens(body, ['`']), ctx, k + 1, rest);
      tiles := literal + [Space(k, k + 1)] + more;
      AndThen(s, tokens, ctx, i, literal + [Space(k, k + 1)], ctx, k + 1, BodyTokens(body, ['`']), BodyNotes(body, i + 1),
        more, ctx, k + 1 + |WrittenCode(rest)|, CodeTokens(rest), CodeNotes(rest, k + 1));
      TemplMeans(body, rest, i);
  }

  lemma RowMeans(p: Piece, rest: Code, i: nat)
    ensures CodeTokens(Row(p, rest)) == PieceTokens([p]) + CodeTokens(rest)
    ensures CodeNotes(Row(p, rest), i) == CommentIn(TileOf(p, i)) + CodeNotes(rest, i + |Written(p)| + 1)
  {
  }

  lemma BracedMeans(inner: Code, rest: Code, i: nat)
    ensures CodeTokens(Braced(inner, rest))
         == [Token(Punct, ['{'])] + CodeTokens(inner) + [Token(Punct, ['}'])] + CodeTokens(rest)
    ensures CodeNotes(Braced(inner, rest), i) == CodeNotes(inner, i + 2) + CodeNotes(rest, i + 2 + |WrittenCode(inner)| + 2)
  {
  }

  lemma TemplMeans(body: Body, rest: Code, i: nat)
    ensures CodeTokens(Templ(body, rest)) == BodyTokens(body, ['`']) + CodeTokens(rest)
    ensures CodeNotes(Templ(body, rest), i) == BodyNotes(body, i + 1) + CodeNotes(rest, i + 1 + |WrittenBody(body)| + 1)
  {
  }

  lemma SubstMeans(u: string, inner: Code, more: Body, head: string, i: nat)
    ensures BodyTokens(Subst(u, inner, more), head)
         == [Token(Template, head + EscapeChunk(u))] + CodeTokens(inner) + BodyTokens(more, [])
    ensures BodyNotes(Subst(u, inner, more), i)
         == CodeNotes(inner, i + |EscapeChunk(u)| + 3)
            + BodyNotes(more, i + |EscapeChunk(u)| + 3 + |WrittenCode(inner)| + 1)
  {
    hide EscapeChunk, WrittenCode, CodeTokens, CodeNotes;
  }

  lemma EmptyReads(s: Source, tokens: seq<Token>, ctx: Context, i: nat)
    requires At(s.text, i, WrittenCode(Empty))
    ensures |WrittenCode(Empty)| == 0
    ensures ReadAs(s, tokens, ctx, i, [], ctx, i, CodeTokens(Empty), CodeNotes(Empty, i))
  {
    ReadsNothing(s, tokens, ctx, i);
  }

  lemma DeeperIsCode(ctx: Context)
    requires InCode(ctx)
    ensures InCode(Deeper(ctx))
  {
  }

  lemma LineReads(s: Source, tokens: seq<Token>, ctx: Context, i: nat, p: Piece)
    requires Sane(s.cls) && IsPiece(s.cls, p) && p != Mark('{') && p != Mark('}') && InCode(ctx)
    requires At(s.text, i, Written(p) + ['\n']) && (0 < i <= |s.text| ==> s.text[i - 1] == '\n')
    ensures
      var e := i + |Written(p)|;
      ReadAs(s, tokens, ctx, i, [TileOf(p, i), Space(e, e + 1)], ctx, e + 1, PieceTokens([p]), CommentIn(TileOf(p, i)))
  {
    hide Reads, Written, TileOf, IsPiece, PieceTokens, At, CommentIn, TokensOf, CommentsOf;
    PieceReads(s, tokens, ctx, i, p);
    PieceIsHere(s, i, p);
    var e := i + |Written(p)|;
    ThenBlank(s, tokens, ctx, i, [TileOf(p, i)], ctx, e, PieceTokens([p]), CommentIn(TileOf(p, i)));
    assert [TileOf(p, i)] + [Space(e, e + 1)] == [TileOf(p, i), Space(e, e + 1)];
  }

  /** A block: its opening brace, what is within, and its closing brace, each with its line. */
  lemma BlockReads(s: Source, tokens: seq<Token>, ctx: Context, i: nat, k: nat, within: seq<Tile>, read: seq<Token>,
                   notes: seq<Comment>)
    returns (tiles: seq<Tile>)
    requires Sane(s.cls) && s.lang == TypeScript && InCode(ctx) && InCode(Deeper(ctx))
    requires i + 1 < |s.text| && s.text[i] == '{' && s.text[i + 1] == '\n'
    requires k + 1 < |s.text| && s.text[k] == '}' && s.text[k + 1] == '\n'
    requires ReadAs(s, tokens + [Token(Punct, ['{'])], Deeper(ctx), i + 2, within, Deeper(ctx), k, read, notes)
    ensures ReadAs(s, tokens, ctx, i, tiles, ctx, k + 2, [Token(Punct, ['{'])] + read + [Token(Punct, ['}'])], notes)
  {
    hide Reads, TokensOf, CommentsOf, InCode, Deeper, Sane;
    var t, u := Lexeme(i, i + 1, Punct, false), Lexeme(k, k + 1, Punct, false);
    var open, close := [Token(Punct, ['{'])], [Token(Punct, ['}'])];
    var deep := Deeper(ctx);
    OpeningReads(s, tokens, ctx, i);
    ThenBlank(s, tokens, ctx, i, [t], deep, i + 1, open, []);
    var head := [t] + [Space(i + 1, i + 2)];
    AndThen(s, tokens, ctx, i, head, deep, i + 2, open, [], within, deep, k, read, notes);
    ClosingReads(s, tokens + (open + read), ctx, k);
    AndThen(s, tokens, ctx, i, head + within, deep, k, open + read, [] + notes, [u], ctx, k + 1, close, []);
    ThenBlank(s, tokens, ctx, i, head + within + [u], ctx, k + 1, open + read + close, [] + notes + []);
    tiles := head + within + [u] + [Space(k + 1, k + 2)];
    assert [] + notes + [] == notes;
  }

  /** A template from a chunk on. */
  lemma {:induction false} BodyIsRead(s: Source, tokens: seq<Token>, outer: Context, ctx: Context, start: nat, i: nat, b: Body)
    returns (tiles: seq<Tile>)
    requires Sane(s.cls) && s.lang == TypeScript && InCode(outer) && IsBody(s.cls, b)
    requires start <= i <= |s.text| && AtChunk(s, tokens, outer, ctx, start, i) && At(s.text, i, WrittenBody(b))
    ensures ReadAs(s, tokens, ctx, start, tiles, outer, i + |WrittenBody(b)|, BodyTokens(b, s.text[start..i]), BodyNotes(b, i))
    decreases b
  {
    hide ReadAs, At, WrittenCode, InCode, AtChunk, EscapeChunk, Sane, Reads, IsCode, WrittenBody, CodeTokens, CodeNotes,
         BodyTokens, BodyNotes;
    match b
    case Last(u) =>
      tiles := LastReads(s, tokens, outer, ctx, start, i, u);
    case Subst(u, inner, more) =>
      SubstParts(s.text, i, u, inner, more);
      var e := i + |EscapeChunk(u)|;
      var k := e + 3 + |WrittenCode(inner)|;
      var chunk := [Token(Template, s.text[start..i] + EscapeChunk(u))];
      var head := FirstReads(s, tokens, outer, ctx, start, i, u);
      InsideIsCode(outer);
      var within := CodeIsRead(s, tokens + chunk, outer + [Inside(0)], e + 3, inner);
      var so := SubstitutionEnds(s, tokens, outer, ctx, start, head, e + 3, chunk, within, k, CodeTokens(inner), CodeNotes(inner, e + 3));
      AfterSubstitutionIsChunk(s, tokens + (chunk + CodeTokens(inner)), outer, k + 1);
      var rest := BodyIsRead(s, tokens + (chunk + CodeTokens(inner)), outer, outer + [Resuming], k + 1, k + 1, more);
      assert s.text[k + 1..k + 1] == [];
      tiles := so + rest;
      AndThen(s, tokens, ctx, start, so, outer + [Resuming], k + 1, chunk + CodeTokens(inner), CodeNotes(inner, e + 3),
        rest, outer, k + 1 + |WrittenBody(more)|, BodyTokens(more, []), BodyNotes(more, k + 1));
      SubstMeans(u, inner, more, s.text[start..i], i);
  }

  lemma LastReads(s: Source, tokens: seq<Token>, outer: Context, ctx: Context, start: nat, i: nat, u: string)
    returns (tiles: seq<Tile>)
    requires start <= i <= |s.text| && AtChunk(s, tokens, outer, ctx, start, i) && At(s.text, i, WrittenBody(Last(u)))
    ensures ReadAs(s, tokens, ctx, start, tiles, outer, i + |WrittenBody(Last(u))|, BodyTokens(Last(u), s.text[start..i]),
                   BodyNotes(Last(u), i))
  {
    hide AtChunk, At, EscapeChunk, Reads;
    ChunkReads(s, tokens, outer, ctx, start, i, u, ['`']);
    var e := i + |EscapeChunk(u)| + 1;
    tiles := [Lexeme(start, e, Template, i == start + 1)];
    IsReadAs(s, tokens, ctx, start, tiles, outer, e);
  }

  /** A chunk that a substitution follows, and the start of that. */
  lemma FirstReads(s: Source, tokens: seq<Token>, outer: Context, ctx: Context, start: nat, i: nat, u: string)
    returns (head: seq<Tile>)
    requires start <= i <= |s.text| && AtChunk(s, tokens, outer, ctx, start, i) && At(s.text, i, EscapeChunk(u) + ['$', '{'])
    requires
      var e := i + |EscapeChunk(u)|;
      At(s.text, e, ['$', '{']) && e + 2 < |s.text| && s.text[e + 2] == '\n'
    ensures ReadAs(s, tokens, ctx, start, head, outer + [Inside(0)], i + |EscapeChunk(u)| + 3,
                   [Token(Template, s.text[start..i] + EscapeChunk(u))], [])
  {
    hide AtChunk, At, EscapeChunk, Reads, ReadAs, TokensOf, CommentsOf;
    var e := i + |EscapeChunk(u)|;
    ChunkReads(s, tokens, outer, ctx, start, i, u, ['$', '{']);
    var t, text := Lexeme(start, e, Template, i == start + 1), s.text[start..i] + EscapeChunk(u);
    assert text + [] == text;
    IsReadAs(s, tokens, ctx, start, [t], outer + [Opening], e);
    head := SubstitutionStarts(s, tokens, outer, ctx, start, t, e, [Token(Template, text)]);
  }

  lemma IsReadAs(s: Source, tokens: seq<Token>, ctx: Context, i: nat, tiles: seq<Tile>, after: Context, j: nat)
    requires Reads(s, tokens, ctx, i, tiles, after, j)
    ensures ReadAs(s, tokens, ctx, i, tiles, after, j, TokensOf(s, tiles), CommentsOf(tiles))
  {
  }

  lemma InsideIsCode(outer: Context)
    ensures InCode(outer + [Inside(0)])
  {
  }

  /** Past the chunk: the substitution's opener and its first line's end. */
  lemma SubstitutionStarts(s: Source, tokens: seq<Token>, outer: Context, ctx: Context, start: nat, t: Tile, e: nat,
                           chunk: seq<Token>)
    returns (head: seq<Tile>)
    requires ReadAs(s, tokens, ctx, start, [t], outer + [Opening], e, chunk, [])
    requires At(s.text, e, ['$', '{']) && e + 2 < |s.text| && s.text[e + 2] == '\n'
    ensures ReadAs(s, tokens, ctx, start, head, outer + [Inside(0)], e + 3, chunk, [])
  {
    hide Reads, TokensOf, CommentsOf, At;
    SubstitutionOpens(s, tokens + chunk, outer, e);
    AndThen(s, tokens, ctx, start, [t], outer + [Opening], e, chunk, [], [Delimiter(e, e + 2)], outer + [Inside(0)], e + 2, [], []);
    assert chunk + [] == chunk;
    ThenBlank(s, tokens, ctx, start, [t] + [Delimiter(e, e + 2)], outer + [Inside(0)], e + 2, chunk, [] + []);
    head := [t] + [Delimiter(e, e + 2)] + [Space(e + 2, e + 3)];
  }

  /** The code of the substitution, and the brace that closes it. */
  lemma SubstitutionEnds(s: Source, tokens: seq<Token>, outer: Context, ctx: Context, start: nat, head: seq<Tile>, j: nat,
                         chunk: seq<Token>, within: seq<Tile>, k: nat, read: seq<Token>, notes: seq<Comment>)
    returns (tiles: seq<Tile>)
    requires Sane(s.cls) && s.lang == TypeScript && k < |s.text| && s.text[k] == '}'
    requires ReadAs(s, tokens, ctx, start, head, outer + [Inside(0)], j, chunk, [])
    requires ReadAs(s, tokens + chunk, outer + [Inside(0)], j, within, outer + [Inside(0)], k, read, notes)
    ensures ReadAs(s, tokens, ctx, start, tiles, outer + [Resuming], k + 1, chunk + read, notes)
  {
    hide Reads, TokensOf, CommentsOf, Sane;
    AndThen(s, tokens, ctx, start, head, outer + [Inside(0)], j, chunk, [], within, outer + [Inside(0)], k, read, notes);
    SubstitutionCloses(s, tokens + (chunk + read), outer, k);
    AndThen(s, tokens, ctx, start, head + within, outer + [Inside(0)], k, chunk + read, [] + notes,
      [Delimiter(k, k + 1)], outer + [Resuming], k + 1, [], []);
    tiles := head + within + [Delimiter(k, k + 1)];
    assert chunk + read + [] == chunk + read && [] + notes + [] == notes;
  }

  /** The tokens and the comments of a whole source of code. */
  lemma WrittenCodeIsLexed(s: Source, c: Code)
    requires Sane(s.cls) && s.lang == TypeScript && IsCode(s.cls, c) && s.text == WrittenCode(c)
    ensures TokensOf(s, Lexing(s)) == CodeTokens(c) && CommentsOf(Lexing(s)) == CodeNotes(c, 0)
  {
    hide TilesFrom, WrittenCode, CodeTokens, CodeNotes, IsCode, TokensOf, CommentsOf, Sane;
    assert s.text[0..|s.text|] == s.text;
    var tiles := CodeIsRead(s, [], [], 0, c);
    NothingAfter(s, [] + TokensOf(s, tiles));
    assert tiles + [] == tiles;
  }

  lemma NothingAfter(s: Source, tokens: seq<Token>)
    ensures TilesFrom(s, tokens, [], |s.text|) == []
  {
  }
}
