/** Comment blocks, cuts and the splice of scripts/eval-comments/strip_comments.py. */
module CommentStripper {
  import opened Sequences
  import opened Strings
  import opened Wrappers
  import opened Lexemes
  import opened CommentLexer

  // ---- Lines ----

  /** The start of the line that offset `i` is on. */
  function LineStart(s: string, i: nat): (r: nat)
    requires i <= |s|
    ensures r <= i && (r > 0 ==> s[r - 1] == '\n') && forall k :: r <= k < i ==> s[k] != '\n'
  {
    if i == 0 || s[i - 1] == '\n' then i else LineStart(s, i - 1)
  }

  function LineNumber(s: string, i: nat): nat
    requires i <= |s|
  {
    if i == 0 then 0 else LineNumber(s, i - 1) + if s[i - 1] == '\n' then 1 else 0
  }

  ghost predicate AllSpace(cls: CharClass, s: string) {
    forall k :: 0 <= k < |s| ==> cls.space(s[k])
  }

  /** Does stripping leave nothing? */
  predicate StripsToNothing(cls: CharClass, s: string)
    ensures StripsToNothing(cls, s) <==> AllSpace(cls, s)
  {
    forall k :: 0 <= k < |s| ==> cls.space(s[k])
  }

  predicate IsFullLine(s: Source, c: Comment)
    requires c.start <= c.end <= |s.text|
  {
    && StripsToNothing(s.cls, s.text[LineStart(s.text, c.start)..c.start])
    && StripsToNothing(s.cls, s.text[c.end..LineEnd(s.text, c.end)])
  }

  // ---- Blocks ----

  ghost predicate InBounds(s: Source, comments: seq<Comment>) {
    forall c :: c in comments ==> c.start <= c.end <= |s.text|
  }

  function Column(s: Source, c: Comment): nat
    requires c.start <= |s.text|
  {
    c.start - LineStart(s.text, c.start)
  }

  /** Does `c` continue the block whose last comment is `prev`? */
  predicate Joins(s: Source, prev: Comment, c: Comment)
    requires prev.start <= prev.end <= |s.text| && c.start <= c.end <= |s.text|
  {
    && IsFullLine(s, c)
    && c.kind == Line
    && LineNumber(s.text, c.start) == LineNumber(s.text, prev.end) + 1
    && (IsFullLine(s, prev) || Column(s, c) == Column(s, prev))
  }

  function Flatten<T>(parts: seq<seq<T>>): seq<T> {
    if parts == [] then [] else Flatten(parts[..|parts| - 1]) + parts[|parts| - 1]
  }

  /** The blocks cut the comments exactly where a comment does not join the one
      before it. */
  ghost predicate IsGrouping(s: Source, comments: seq<Comment>, blocks: seq<seq<Comment>>)
    requires InBounds(s, comments)
  {
    && Flatten(blocks) == comments
    && (forall k :: 0 <= k < |blocks| ==> blocks[k] != [] && InBounds(s, blocks[k]))
    && (forall k, i :: 0 <= k < |blocks| && 0 < i < |blocks[k]| ==> Joins(s, blocks[k][i - 1], blocks[k][i]))
    && (forall k :: 0 < k < |blocks| ==> !Joins(s, blocks[k - 1][|blocks[k - 1]| - 1], blocks[k][0]))
  }

  /** The blocks: a comment starts a new one unless it joins the one before it. */
  function Blocks(s: Source, comments: seq<Comment>): (r: seq<seq<Comment>>)
    requires InBounds(s, comments)
    ensures comments != [] ==> r != []
  {
    if comments == [] then []
    else
      var n := |comments| - 1;
      assert forall c :: c in comments[..n] ==> c in comments;
      var init := Blocks(s, comments[..n]);
      if n > 0 && Joins(s, comments[n - 1], comments[n])
      then init[..|init| - 1] + [init[|init| - 1] + [comments[n]]]
      else init + [[comments[n]]]
  }

  method CommentBlocks(s: Source, comments: seq<Comment>) returns (blocks: seq<seq<Comment>>)
    requires InBounds(s, comments)
    ensures blocks == Blocks(s, comments)
  {
    hide IsFullLine, LineNumber, Column, Joins;
    blocks := [];
    for n := 0 to |comments|
      invariant InBounds(s, comments[..n]) && blocks == Blocks(s, comments[..n])
    {
      var c := comments[n];
      assert c in comments && comments[..n + 1][..n] == comments[..n];
      if n > 0 && Joins(s, comments[n - 1], c) {
        var last := |blocks| - 1;
        blocks := blocks[..last] + [blocks[last] + [c]];
      } else {
        blocks := blocks + [[c]];
      }
    }
    assert comments[..|comments|] == comments;
  }

  /** What the blocks are, without reference to how they are gathered. */
  lemma {:induction false} BlocksAreGrouping(s: Source, comments: seq<Comment>)
    requires InBounds(s, comments)
    ensures IsGrouping(s, comments, Blocks(s, comments))
    ensures comments != [] ==> Ends(Blocks(s, comments), comments[|comments| - 1])
    decreases |comments|
  {
    hide IsFullLine, LineNumber, Column, Joins, IsGrouping, Flatten;
    if comments == [] {
      NothingGrouped(s);
    } else {
      var n := |comments| - 1;
      assert forall c :: c in comments[..n] ==> c in comments;
      BlocksAreGrouping(s, comments[..n]);
      assert comments == comments[..n] + [comments[n]] && comments[n] in comments;
      if n > 0 && Joins(s, comments[n - 1], comments[n]) {
        GroupingGrows(s, comments[..n], Blocks(s, comments[..n]), comments[n]);
      } else {
        GroupingStartsBlock(s, comments[..n], Blocks(s, comments[..n]), comments[n]);
      }
    }
  }

  ghost predicate Ends(blocks: seq<seq<Comment>>, c: Comment) {
    && blocks != [] && blocks[|blocks| - 1] != []
    && blocks[|blocks| - 1][|blocks[|blocks| - 1]| - 1] == c
  }

  lemma NothingGrouped(s: Source)
    ensures IsGrouping(s, [], [])
  {
  }

  lemma GroupingGrows(s: Source, comments: seq<Comment>, blocks: seq<seq<Comment>>, c: Comment)
    requires InBounds(s, comments) && InBounds(s, comments + [c]) && IsGrouping(s, comments, blocks)
    requires comments != [] && Ends(blocks, comments[|comments| - 1])
    requires c.start <= c.end <= |s.text| && comments[|comments| - 1] in comments
    requires Joins(s, comments[|comments| - 1], c)
    ensures
      var grown := blocks[..|blocks| - 1] + [blocks[|blocks| - 1] + [c]];
      IsGrouping(s, comments + [c], grown) && Ends(grown, c)
  {
    hide Joins, Flatten;
    FlattenGrowLast(blocks, c);
    var last := |blocks| - 1;
    var grown := blocks[..last] + [blocks[last] + [c]];
    forall k, i | 0 <= k < |grown| && 0 < i < |grown[k]| ensures Joins(s, grown[k][i - 1], grown[k][i]) {
      if k < last {
        assert grown[k] == blocks[k];
      } else if i < |blocks[last]| {
        assert Joins(s, blocks[last][i - 1], blocks[last][i]);
      }
    }
    forall k | 0 < k < |grown| ensures !Joins(s, grown[k - 1][|grown[k - 1]| - 1], grown[k][0]) {
      assert !Joins(s, blocks[k - 1][|blocks[k - 1]| - 1], blocks[k][0]);
    }
  }

  lemma GroupingStartsBlock(s: Source, comments: seq<Comment>, blocks: seq<seq<Comment>>, c: Comment)
    requires InBounds(s, comments) && InBounds(s, comments + [c]) && IsGrouping(s, comments, blocks)
    requires c.start <= c.end <= |s.text|
    requires if comments == [] then blocks == []
             else comments[|comments| - 1] in comments && Ends(blocks, comments[|comments| - 1])
                  && !Joins(s, comments[|comments| - 1], c)
    ensures IsGrouping(s, comments + [c], blocks + [[c]]) && Ends(blocks + [[c]], c)
  {
    hide Joins, Flatten;
    FlattenAppend(blocks, [c]);
    var more := blocks + [[c]];
    forall k, i | 0 <= k < |more| && 0 < i < |more[k]| ensures Joins(s, more[k][i - 1], more[k][i]) {
      assert more[k] == blocks[k];
    }
    forall k | 0 < k < |more| ensures !Joins(s, more[k - 1][|more[k - 1]| - 1], more[k][0]) {
      if k < |blocks| {
        assert !Joins(s, blocks[k - 1][|blocks[k - 1]| - 1], blocks[k][0]);
      }
    }
  }

  lemma FlattenAppend<T>(parts: seq<seq<T>>, part: seq<T>)
    ensures Flatten(parts + [part]) == Flatten(parts) + part
  {
    assert (parts + [part])[..|parts|] == parts;
  }

  lemma FlattenGrowLast<T>(parts: seq<seq<T>>, x: T)
    requires parts != []
    ensures Flatten(parts[..|parts| - 1] + [parts[|parts| - 1] + [x]]) == Flatten(parts) + [x]
  {
    FlattenAppend(parts[..|parts| - 1], parts[|parts| - 1] + [x]);
  }

  // ---- Cuts ----

  /** A span to delete, and what replaces it. */
  datatype Cut = Cut(start: nat, end: nat, repl: string)

  function TrimBack(s: string, floor: nat, i: nat): (r: nat)
    requires floor <= i <= |s|
    ensures floor <= r <= i && forall k :: r <= k < i ==> s[k] == ' ' || s[k] == '\t'
  {
    if i > floor && (s[i - 1] == ' ' || s[i - 1] == '\t') then TrimBack(s, floor, i - 1) else i
  }

  function CutOf(s: Source, c: Comment): Cut
    requires c.start <= c.end <= |s.text|
  {
    var ls, le := LineStart(s.text, c.start), LineEnd(s.text, c.end);
    if IsFullLine(s, c) then Cut(ls, if le + 1 <= |s.text| then le + 1 else |s.text|, "")
    else if StripsToNothing(s.cls, s.text[c.end..le]) then Cut(TrimBack(s.text, ls, c.start), c.end, "")
    else
      var left := if c.start > 0 then s.text[c.start - 1] else ' ';
      var right := if c.end < |s.text| then s.text[c.end] else ' ';
      Cut(c.start, c.end, if WordChar(s.cls, left) && WordChar(s.cls, right) then " " else "")
  }

  method CutFor(s: Source, c: Comment) returns (cut: Cut)
    requires c.start <= c.end <= |s.text|
    ensures cut == CutOf(s, c)
  {
    var ls, le := LineStart(s.text, c.start), LineEnd(s.text, c.end);
    if IsFullLine(s, c) {
      return Cut(ls, if le + 1 <= |s.text| then le + 1 else |s.text|, "");
    }
    if StripsToNothing(s.cls, s.text[c.end..le]) {
      var start := c.start;
      while start > ls && (s.text[start - 1] == ' ' || s.text[start - 1] == '\t')
        invariant ls <= start <= c.start && TrimBack(s.text, ls, start) == TrimBack(s.text, ls, c.start)
      {
        start := start - 1;
      }
      return Cut(start, c.end, "");
    }
    var left := if c.start > 0 then s.text[c.start - 1] else ' ';
    var right := if c.end < |s.text| then s.text[c.end] else ' ';
    var fuse := WordChar(s.cls, left) && WordChar(s.cls, right);
    return Cut(c.start, c.end, if fuse then " " else "");
  }

  /** A cut covers its comment, and beyond it only whitespace. */
  lemma CutIsCommentAndSpace(s: Source, c: Comment)
    requires Sane(s.cls) && CommentOk(s, c)
    ensures
      var cut := CutOf(s, c);
      && cut.start <= c.start && c.end <= cut.end <= |s.text|
      && AllSpace(s.cls, s.text[cut.start..c.start]) && AllSpace(s.cls, s.text[c.end..cut.end])
      && AllSpace(s.cls, cut.repl)
  {
    var cut, le := CutOf(s, c), LineEnd(s.text, c.end);
    if IsFullLine(s, c) && le < |s.text| {
      assert s.text[c.end..cut.end] == s.text[c.end..le] + ['\n'];
    }
  }

  /** A character that is no space is outside every stretch of spaces. */
  lemma OutsideSpace(cls: CharClass, s: string, a: nat, b: nat, k: nat)
    requires a <= b <= |s| && k < |s| && AllSpace(cls, s[a..b]) && !cls.space(s[k])
    ensures k < a || b <= k
  {
    forall i | a <= i < b ensures cls.space(s[i]) {
      assert s[a..b][i - a] == s[i];
    }
  }

  /** The cuts of two comments, one before the other, do not overlap. */
  lemma CutsAreApart(s: Source, c: Comment, d: Comment)
    requires Sane(s.cls) && CommentOk(s, c) && CommentOk(s, d) && c.end <= d.start
    ensures CutOf(s, c).end <= CutOf(s, d).start
  {
    hide LineStart, LineEnd, TrimBack, WordChar;
    var ls, le := LineStart(s.text, d.start), LineEnd(s.text, c.end);
    if IsFullLine(s, c) {
      OutsideSpace(s.cls, s.text, c.end, le, d.start);
      assert le < d.start && le + 1 <= ls;
    } else if c.kind == Line {
      assert c.end < ls;
    } else if IsFullLine(s, d) {
      OutsideSpace(s.cls, s.text, ls, d.start, c.end - 1);
    }
  }

  // ---- Splicing ----

  ghost predicate CutsOrdered(from: nat, cuts: seq<Cut>, n: nat)
    decreases |cuts|
  {
    if cuts == [] then from <= n
    else from <= cuts[0].start <= cuts[0].end <= n && CutsOrdered(cuts[0].end, cuts[1..], n)
  }

  /** Deleting the cuts in one pass from the left. */
  ghost function LeftToRight(s: string, from: nat, cuts: seq<Cut>): string
    requires CutsOrdered(from, cuts, |s|)
    decreases |cuts|
  {
    if cuts == [] then s[from..]
    else s[from..cuts[0].start] + cuts[0].repl + LeftToRight(s, cuts[0].end, cuts[1..])
  }

  /** The source without the given comments, and nothing else left out. */
  ghost function Outside(s: string, from: nat, comments: seq<Comment>): string
    requires forall c :: c in comments ==> c.start <= c.end <= |s|
    requires from <= |s|
    decreases |comments|
  {
    if comments == [] then s[from..]
    else
      var c := comments[0];
      (if from <= c.start then s[from..c.start] else "") + Outside(s, c.end, comments[1..])
  }

  /** The characters that are no whitespace, in order. */
  ghost function Visible(cls: CharClass, s: string): string {
    if s == "" then ""
    else Visible(cls, s[..|s| - 1]) + if cls.space(s[|s| - 1]) then "" else [s[|s| - 1]]
  }

  lemma {:induction false} VisibleConcat(cls: CharClass, a: string, b: string)
    ensures Visible(cls, a + b) == Visible(cls, a) + Visible(cls, b)
    decreases |b|
  {
    if b == "" {
      assert a + b == a;
    } else {
      VisibleConcat(cls, a, b[..|b| - 1]);
      assert (a + b)[..|a + b| - 1] == a + b[..|b| - 1];
    }
  }

  lemma {:induction false} SpaceIsInvisible(cls: CharClass, s: string)
    requires AllSpace(cls, s)
    ensures Visible(cls, s) == ""
    decreases |s|
  {
    if s != "" {
      SpaceIsInvisible(cls, s[..|s| - 1]);
    }
  }

  function CutsOf(s: Source, comments: seq<Comment>): seq<Cut>
    requires forall c :: c in comments ==> c.start <= c.end <= |s.text|
  {
    if comments == [] then [] else [CutOf(s, comments[0])] + CutsOf(s, comments[1..])
  }

  ghost predicate CommentsOk(s: Source, comments: seq<Comment>) {
    Ascending(comments) && forall c :: c in comments ==> CommentOk(s, c)
  }

  lemma CommentsOkTail(s: Source, comments: seq<Comment>)
    requires CommentsOk(s, comments) && comments != []
    ensures CommentsOk(s, comments[1..])
    ensures comments[1..] != [] ==> comments[0].end <= comments[1..][0].start
    ensures CommentOk(s, comments[0]) && comments[0].start <= comments[0].end <= |s.text|
    ensures forall c :: c in comments ==> c.start <= c.end <= |s.text|
  {
  }

  lemma {:induction false} CutsAreOrdered(s: Source, from: nat, comments: seq<Comment>)
    requires Sane(s.cls) && CommentsOk(s, comments) && from <= |s.text|
    requires comments != [] ==> from <= (CommentsOkTail(s, comments); CutOf(s, comments[0]).start)
    ensures forall c :: c in comments ==> c.start <= c.end <= |s.text|
    ensures CutsOrdered(from, CutsOf(s, comments), |s.text|)
    decreases |comments|
  {
    hide CutOf, CommentOk;
    if comments != [] {
      CommentsOkTail(s, comments);
      CutIsCommentAndSpace(s, comments[0]);
      if comments[1..] != [] {
        CommentsOkTail(s, comments[1..]);
        CutsAreApart(s, comments[0], comments[1..][0]);
      }
      CutsAreOrdered(s, CutOf(s, comments[0]).end, comments[1..]);
      var cuts := CutsOf(s, comments);
      assert cuts[1..] == CutsOf(s, comments[1..]);
    }
  }

  /** Splicing out the cuts removes the comments and whitespace, nothing else.
      Whitespace between `upto` and `from` was cut with what came before. */
  lemma {:induction false} SpliceLosesOnlyComments(s: Source, upto: nat, from: nat, comments: seq<Comment>)
    requires Sane(s.cls) && CommentsOk(s, comments) && upto <= from <= |s.text|
    requires AllSpace(s.cls, s.text[upto..from])
    requires forall c :: c in comments ==> c.start <= c.end <= |s.text|
    requires CutsOrdered(from, CutsOf(s, comments), |s.text|)
    ensures Visible(s.cls, LeftToRight(s.text, from, CutsOf(s, comments)))
         == Visible(s.cls, Outside(s.text, upto, comments))
    decreases |comments|
  {
    hide CutOf, CommentOk, Visible, AllSpace;
    var text, cls, cuts := s.text, s.cls, CutsOf(s, comments);
    if comments == [] {
      SpaceIsInvisible(cls, text[upto..from]);
      assert text[upto..] == text[upto..from] + text[from..];
      VisibleConcat(cls, text[upto..from], text[from..]);
    } else {
      var c, cut := comments[0], cuts[0];
      CommentsOkTail(s, comments);
      CutIsCommentAndSpace(s, c);
      assert cuts[1..] == CutsOf(s, comments[1..]);
      SpliceLosesOnlyComments(s, c.end, cut.end, comments[1..]);
      VisiblePiece(cls, text, upto, from, cut.start, c.start, cut.repl, LeftToRight(text, cut.end, cuts[1..]),
        Outside(text, c.end, comments[1..]));
    }
  }

  /** One piece of the output: what stands before a cut, its replacement, and the rest. */
  lemma VisiblePiece(cls: CharClass, text: string, upto: nat, from: nat, cutStart: nat, start: nat,
                     repl: string, rest: string, outside: string)
    requires upto <= from <= cutStart <= start <= |text|
    requires AllSpace(cls, text[upto..from]) && AllSpace(cls, text[cutStart..start]) && AllSpace(cls, repl)
    requires Visible(cls, rest) == Visible(cls, outside)
    ensures Visible(cls, text[from..cutStart] + repl + rest) == Visible(cls, text[upto..start] + outside)
  {
    hide Visible, AllSpace;
    SpaceIsInvisible(cls, text[upto..from]);
    SpaceIsInvisible(cls, text[cutStart..start]);
    SpaceIsInvisible(cls, repl);
    assert text[upto..start] == text[upto..from] + (text[from..cutStart] + text[cutStart..start]);
    VisibleConcat(cls, text[upto..from], text[from..cutStart] + text[cutStart..start]);
    VisibleConcat(cls, text[from..cutStart], text[cutStart..start]);
    VisibleConcat(cls, text[from..cutStart] + repl, rest);
    VisibleConcat(cls, text[from..cutStart], repl);
    VisibleConcat(cls, text[upto..start], outside);
  }

  // ---- Two words with comments between them ----

  /** The comments follow one another without a character between them. */
  ghost predicate Touching(comments: seq<Comment>) {
    comments != [] && forall i :: 0 < i < |comments| ==> comments[i - 1].end == comments[i].start
  }

  predicate Solid(cls: CharClass, c: char) { !cls.space(c) }

  /** Does the text start in the middle of what the lexer takes for a word? */
  predicate ContinuesWord(cls: CharClass, text: string) {
    text != "" && (WordChar(cls, text[0]) || text[0] == '$')
  }

  /** Does a comment that stands there keep two words apart, for the tool? */
  predicate Fuses(s: Source, start: nat, end: nat)
    requires 0 < start <= |s.text|
  {
    WordChar(s.cls, s.text[start - 1]) && end < |s.text| && WordChar(s.cls, s.text[end])
  }

  lemma CutAfterSolid(s: Source, c: Comment)
    requires Sane(s.cls) && CommentOk(s, c) && 0 < c.start && Solid(s.cls, s.text[c.start - 1])
    ensures c.start <= c.end <= |s.text|
    ensures CutOf(s, c) == Cut(c.start, c.end, if Fuses(s, c.start, c.end) then " " else "")
  {
    var ls, le := LineStart(s.text, c.start), LineEnd(s.text, c.end);
    assert ls <= c.start - 1;
    assert s.text[ls..c.start][c.start - 1 - ls] == s.text[c.start - 1];
    if c.end < le {
      assert s.text[c.end..le][0] == s.text[c.end];
    }
  }

  lemma SlashBeforeNext(s: Source, c: Comment, d: Comment)
    requires Sane(s.cls) && CommentOk(s, c) && CommentOk(s, d) && c.end == d.start
    ensures 0 < d.start && s.text[d.start - 1] == '/' && c.end < |s.text| && s.text[c.end] == '/'
    ensures Solid(s.cls, '/') && !WordChar(s.cls, '/')
  {
  }

  /** Where a run of touching comments stands: after a character that is no space. */
  ghost predicate StandsSolid(s: Source, run: seq<Comment>) {
    Touching(run) && 0 < run[0].start <= |s.text| && Solid(s.cls, s.text[run[0].start - 1])
  }

  /** There is one comment, the character before it is no dollar sign, and what follows could
      continue a word, but starts with no dollar sign either. */
  predicate IsParted(s: Source, run: seq<Comment>)
    requires run != [] && 0 < run[0].start <= |s.text| && run[|run| - 1].end <= |s.text|
  {
    var end := run[|run| - 1].end;
    |run| == 1 && s.text[run[0].start - 1] != '$' && ContinuesWord(s.cls, s.text[end..]) && s.text[end] != '$'
  }

  /** What is left in the place of the run. */
  function Gap(s: Source, run: seq<Comment>): string
    requires run != [] && 0 < run[0].start <= |s.text|
  {
    if |run| == 1 && Fuses(s, run[0].start, run[0].end) then " " else ""
  }

  lemma CutsCons(s: Source, comments: seq<Comment>)
    requires comments != [] && forall c :: c in comments ==> c.start <= c.end <= |s.text|
    ensures comments[0] in comments && forall c :: c in comments[1..] ==> c in comments
    ensures CutsOf(s, comments) == [CutOf(s, comments[0])] + CutsOf(s, comments[1..])
    ensures CutsOf(s, comments)[1..] == CutsOf(s, comments[1..])
  {
    hide CutOf;
    assert comments[0] in comments;
  }

  lemma RestIsOrdered(s: Source, comments: seq<Comment>)
    requires Sane(s.cls) && CommentsOk(s, comments) && comments != []
    ensures CommentsOk(s, comments[1..]) && forall c :: c in comments[1..] ==> c.start <= c.end <= |s.text|
    ensures comments[0].start <= comments[0].end <= |s.text| && CutOf(s, comments[0]).end <= |s.text|
    ensures CutsOrdered(CutOf(s, comments[0]).end, CutsOf(s, comments[1..]), |s.text|)
  {
    hide CutOf, CommentOk;
    CommentsOkTail(s, comments);
    CutIsCommentAndSpace(s, comments[0]);
    if comments[1..] != [] {
      CommentsOkTail(s, comments[1..]);
      CutsAreApart(s, comments[0], comments[1..][0]);
    }
    CutsAreOrdered(s, CutOf(s, comments[0]).end, comments[1..]);
  }

  lemma FirstCut(s: Source, from: nat, comments: seq<Comment>)
    requires Sane(s.cls) && CommentsOk(s, comments) && comments != []
    requires comments[0].start <= comments[0].end <= |s.text| && from <= CutOf(s, comments[0]).start
    ensures forall c :: c in comments ==> c.start <= c.end <= |s.text|
    ensures forall c :: c in comments[1..] ==> c in comments
    ensures CommentsOk(s, comments[1..])
    ensures
      var cut := CutOf(s, comments[0]);
      && cut.start <= cut.end <= |s.text|
      && CutsOrdered(cut.end, CutsOf(s, comments[1..]), |s.text|) && CutsOrdered(from, CutsOf(s, comments), |s.text|)
      && LeftToRight(s.text, from, CutsOf(s, comments))
      == s.text[from..cut.start] + cut.repl + LeftToRight(s.text, cut.end, CutsOf(s, comments[1..]))
  {
    hide CutOf, CommentOk;
    CommentsOkTail(s, comments);
    CutIsCommentAndSpace(s, comments[0]);
    CutsCons(s, comments);
    RestIsOrdered(s, comments);
  }

  /** A run of touching comments that goes leaves its gap, whatever goes after it. */
  lemma {:induction false} RunLeavesItsGap(s: Source, from: nat, run: seq<Comment>, rest: seq<Comment>)
    requires Sane(s.cls) && CommentsOk(s, run + rest) && StandsSolid(s, run) && from <= run[0].start
    ensures forall c :: c in run + rest ==> c.start <= c.end <= |s.text|
    ensures forall c :: c in rest ==> c in run + rest
    ensures
      var end := run[|run| - 1].end;
      && CutsOrdered(from, CutsOf(s, run + rest), |s.text|) && CutsOrdered(end, CutsOf(s, rest), |s.text|)
      && LeftToRight(s.text, from, CutsOf(s, run + rest))
      == s.text[from..run[0].start] + Gap(s, run) + LeftToRight(s.text, end, CutsOf(s, rest))
    decreases |run|
  {
    hide CutOf, CommentOk, Solid, CutsOf, CutsOrdered, LeftToRight, StandsSolid;
    RunHead(s, run, rest);
    var all, c := run + rest, run[0];
    if |run| == 1 {
      CutAfterSolid(s, c);
      FirstCut(s, from, all);
    } else {
      RunTailStands(s, run, rest);
      SlashBeforeNext(s, c, run[1]);
      CutAfterSolid(s, c);
      FirstCut(s, from, all);
      RunLeavesItsGap(s, c.end, run[1..], rest);
      assert s.text[c.end..c.end] == "";
    }
  }

  lemma RunHead(s: Source, run: seq<Comment>, rest: seq<Comment>)
    requires CommentsOk(s, run + rest) && StandsSolid(s, run)
    ensures run != [] && (run + rest)[0] == run[0] && CommentOk(s, run[0]) && run[0].start <= run[0].end <= |s.text|
    ensures 0 < run[0].start && Solid(s.cls, s.text[run[0].start - 1])
    ensures |run| == 1 ==> (run + rest)[1..] == rest
  {
    hide CommentOk, Solid;
    CommentsOkTail(s, run + rest);
    assert (run + rest)[0] == run[0];
  }

  lemma RunTailStands(s: Source, run: seq<Comment>, rest: seq<Comment>)
    requires Sane(s.cls) && CommentsOk(s, run + rest) && StandsSolid(s, run) && |run| > 1
    ensures CommentOk(s, run[0]) && CommentOk(s, run[1]) && run[0].end == run[1].start
    ensures (run + rest)[1..] == run[1..] + rest && CommentsOk(s, run[1..] + rest) && StandsSolid(s, run[1..])
    ensures run[0].end < |s.text| && Solid(s.cls, s.text[run[0].end])
  {
    hide CommentOk;
    var all := run + rest;
    CommentsOkTail(s, all);
    assert all[1..] == run[1..] + rest;
    assert run[0] == all[0] && all[0] in all && run[1] == all[1] && all[1] in all;
    assert run[0].end == run[1].start;
    SlashBeforeNext(s, run[0], run[1]);
    var tail := run[1..];
    assert forall i :: 0 < i < |tail| ==> tail[i] == run[i + 1] && tail[i - 1] == run[i];
  }

  /** Cutting piece by piece: what goes before `at`, and what goes after it. */
  lemma {:induction false} SplitAt(text: string, from: nat, a: seq<Cut>, b: seq<Cut>, at: nat)
    requires at <= |text| && CutsOrdered(from, a, at) && CutsOrdered(at, b, |text|)
    ensures CutsOrdered(from, a, |text[..at]|) && CutsOrdered(from, a + b, |text|)
    ensures LeftToRight(text, from, a + b) == LeftToRight(text[..at], from, a) + LeftToRight(text, at, b)
    decreases |a|
  {
    if a == [] {
      assert a + b == b;
      LaterStart(text, from, at, b);
      NoCuts(text[..at], from);
      assert text[..at][from..] == text[from..at];
    } else {
      assert (a + b)[1..] == a[1..] + b && (a + b)[0] == a[0];
      CutsStartAfter(a[0].end, a[1..], at);
      OrderedEnd(a[0].end, a[1..], at);
      SplitAt(text, a[0].end, a[1..], b, at);
      SplitFirst(text, from, a, b, at);
    }
  }

  lemma SplitFirst(text: string, from: nat, a: seq<Cut>, b: seq<Cut>, at: nat)
    requires at <= |text| && a != [] && CutsOrdered(from, a, at) && CutsOrdered(from, a, |text[..at]|)
    requires from <= a[0].start <= a[0].end <= at
    requires (a + b)[1..] == a[1..] + b && CutsOrdered(a[0].end, a[1..] + b, |text|) && CutsOrdered(at, b, |text|)
    requires LeftToRight(text, a[0].end, a[1..] + b) == LeftToRight(text[..at], a[0].end, a[1..]) + LeftToRight(text, at, b)
    ensures CutsOrdered(from, a + b, |text|)
    ensures LeftToRight(text, from, a + b) == LeftToRight(text[..at], from, a) + LeftToRight(text, at, b)
  {
    FirstOrdered(from, a + b, |text|);
    hide LeftToRight, CutsOrdered;
    FirstPiece(text, from, a + b);
    FirstPiece(text[..at], from, a);
    assert (a + b)[0] == a[0] && text[..at][from..a[0].start] == text[from..a[0].start];
    Regroup(text[from..a[0].start], a[0].repl, LeftToRight(text[..at], a[0].end, a[1..]), LeftToRight(text, at, b));
  }

  lemma FirstOrdered(from: nat, cuts: seq<Cut>, n: nat)
    requires cuts != [] && from <= cuts[0].start <= cuts[0].end <= n && CutsOrdered(cuts[0].end, cuts[1..], n)
    ensures CutsOrdered(from, cuts, n)
  {
  }

  lemma FirstPiece(text: string, from: nat, cuts: seq<Cut>)
    requires CutsOrdered(from, cuts, |text|) && cuts != []
    ensures from <= cuts[0].start <= cuts[0].end <= |text| && CutsOrdered(cuts[0].end, cuts[1..], |text|)
    ensures LeftToRight(text, from, cuts)
         == text[from..cuts[0].start] + cuts[0].repl + LeftToRight(text, cuts[0].end, cuts[1..])
  {
  }

  lemma Regroup(a: string, b: string, c: string, d: string)
    ensures a + b + (c + d) == (a + b + c) + d
  {
  }

  lemma {:induction false} OrderedEnd(from: nat, cuts: seq<Cut>, n: nat)
    requires CutsOrdered(from, cuts, n)
    ensures from <= n
    decreases |cuts|
  {
    if cuts != [] {
      OrderedEnd(cuts[0].end, cuts[1..], n);
    }
  }

  lemma {:induction false} OrderedUpTo(from: nat, cuts: seq<Cut>, n: nat, w: nat)
    requires CutsOrdered(from, cuts, n) && from <= w && forall c :: c in cuts ==> c.end <= w
    ensures CutsOrdered(from, cuts, w)
    decreases |cuts|
  {
    if cuts != [] {
      assert cuts[0] in cuts;
      OrderedUpTo(cuts[0].end, cuts[1..], n, w);
    }
  }

  /** The cuts of comments that end before a character that is no space end before it too. */
  lemma {:induction false} CutsEndBefore(s: Source, comments: seq<Comment>, w: nat)
    requires Sane(s.cls) && CommentsOk(s, comments) && w < |s.text| && Solid(s.cls, s.text[w])
    requires forall c :: c in comments ==> c.end <= w
    ensures forall c :: c in comments ==> c.start <= c.end <= |s.text|
    ensures forall c :: c in CutsOf(s, comments) ==> c.end <= w
    decreases |comments|
  {
    hide CutOf, CommentOk;
    if comments != [] {
      CommentsOkTail(s, comments);
      CutsCons(s, comments);
      CutIsCommentAndSpace(s, comments[0]);
      OutsideSpace(s.cls, s.text, comments[0].end, CutOf(s, comments[0]).end, w);
      CutsEndBefore(s, comments[1..], w);
    }
  }

  lemma CutsBefore(s: Source, comments: seq<Comment>, w: nat)
    requires Sane(s.cls) && CommentsOk(s, comments) && w < |s.text| && Solid(s.cls, s.text[w])
    requires forall c :: c in comments ==> c.end <= w
    ensures forall c :: c in comments ==> c.start <= c.end <= |s.text|
    ensures CutsOrdered(0, CutsOf(s, comments), w)
  {
    hide CutOf, CommentOk, CutsOf;
    CutsEndBefore(s, comments, w);
    if comments != [] {
      CommentsOkTail(s, comments);
    }
    CutsAreOrdered(s, 0, comments);
    OrderedUpTo(0, CutsOf(s, comments), |s.text|, w);
  }

  // ---- The lexer's own words ----

  lemma WordIsSolid(cls: CharClass, c: char)
    requires Sane(cls) && (WordChar(cls, c) || c == '$')
    ensures Solid(cls, c)
  {
  }

  lemma {:induction false} WordHolds(s: Source, j: nat, k: nat)
    requires j <= |s.text| && j <= k < WordEnd(s, j)
    ensures WordChar(s.cls, s.text[k]) || s.text[k] == '$'
    decreases k - j
  {
    if j < k {
      WordHolds(s, j + 1, k);
    }
  }

  lemma {:induction false} WordGoesOn(s: Source, j: nat, e: nat)
    requires j <= e <= |s.text|
    requires forall k :: j <= k < e ==> WordChar(s.cls, s.text[k]) || s.text[k] == '$'
    ensures WordEnd(s, j) == WordEnd(s, e)
    decreases e - j
  {
    if j < e {
      WordGoesOn(s, j + 1, e);
    }
  }

  /** A word between two texts ends where it stands iff the text after it starts with no
      character of a word. */
  lemma WordEndsIn(s: Source, before: string, word: string, after: string)
    requires s.text == before + word + after
    requires forall k :: 0 <= k < |word| ==> WordChar(s.cls, word[k]) || word[k] == '$'
    ensures WordEnd(s, |before|) == |before| + |word| <==> !ContinuesWord(s.cls, after)
  {
    var e := |before| + |word|;
    assert forall k :: |before| <= k < e ==> s.text[k] == word[k - |before|];
    WordGoesOn(s, |before|, e);
    if after != "" {
      assert s.text[e] == after[0];
    }
  }

  /** The first character past the run stays, whatever goes after it. */
  lemma TailStarts(s: Source, last: Comment, rest: seq<Comment>)
    requires Sane(s.cls) && CommentsOk(s, [last] + rest) && last.end < |s.text|
    requires Solid(s.cls, s.text[last.end]) && (rest != [] ==> last.end < rest[0].start)
    requires last.start <= last.end && CutOf(s, last).end == last.end
    ensures forall c :: c in rest ==> c.start <= c.end <= |s.text|
    ensures CutsOrdered(last.end, CutsOf(s, rest), |s.text|)
    ensures
      var tail := LeftToRight(s.text, last.end, CutsOf(s, rest));
      tail != "" && tail[0] == s.text[last.end]
  {
    hide CutOf, CommentOk, CutsOf, LeftToRight, CutsOrdered;
    assert ([last] + rest)[1..] == rest;
    RestIsOrdered(s, [last] + rest);
    if rest != [] {
      assert ([last] + rest)[1] in [last] + rest;
      CutIsCommentAndSpace(s, rest[0]);
      CutsCons(s, rest);
      OutsideSpace(s.cls, s.text, CutOf(s, rest[0]).start, rest[0].start, last.end);
      FirstStays(s.text, last.end, CutsOf(s, rest));
    } else {
      CutsOfNothing(s);
      NoCuts(s.text, last.end);
    }
  }

  /** What follows a comment: nothing, or a space. */
  predicate EndsBlank(s: Source, c: Comment) {
    c.end < |s.text| ==> s.cls.space(s.text[c.end])
  }

  /** When a space follows the run, whatever goes after it, no word comes to stand there: the
      next cut leaves that space, or reaches back to it and ends before another. */
  lemma {:induction false} TailIsBlank(s: Source, last: Comment, rest: seq<Comment>)
    requires Sane(s.cls) && CommentsOk(s, [last] + rest) && EndsBlank(s, last)
    requires last.start <= last.end <= |s.text| && CutOf(s, last).end == last.end
    ensures forall c :: c in rest ==> c.start <= c.end <= |s.text|
    ensures CutsOrdered(last.end, CutsOf(s, rest), |s.text|)
    ensures !ContinuesWord(s.cls, LeftToRight(s.text, last.end, CutsOf(s, rest)))
    decreases |rest|
  {
    hide CutOf, CommentOk, CutsOf, LeftToRight, CutsOrdered;
    assert ([last] + rest)[1..] == rest;
    RestIsOrdered(s, [last] + rest);
    SpaceIsNoWord(s.cls);
    if rest == [] {
      CutsOfNothing(s);
      NoCuts(s.text, last.end);
      if last.end < |s.text| {
        assert s.text[last.end..][0] == s.text[last.end];
      }
    } else {
      var next := rest[0];
      assert ([last] + rest)[0] == last && ([last] + rest)[1] == next && next in [last] + rest && last in [last] + rest;
      StartsWithSlash(s, next);
      CutsCons(s, rest);
      CutIsCommentAndSpace(s, next);
      FirstPiece(s.text, last.end, CutsOf(s, rest));
      if last.end < CutOf(s, next).start {
        FirstStays(s.text, last.end, CutsOf(s, rest));
      } else {
        CutThatReachesBack(s, last, next);
        assert [next] + rest[1..] == rest;
        TailIsBlank(s, next, rest[1..]);
        assert s.text[last.end..last.end] == "";
      }
    }
  }

  lemma SpaceIsNoWord(cls: CharClass)
    requires Sane(cls)
    ensures forall c :: cls.space(c) ==> !WordChar(cls, c) && c != '$'
  {
  }

  /** A cut that reaches back to the comment before it is that of a trailing comment. */
  lemma CutThatReachesBack(s: Source, c: Comment, d: Comment)
    requires Sane(s.cls) && CommentOk(s, c) && CommentOk(s, d) && c.end <= d.start && EndsBlank(s, c)
    requires CutOf(s, d).start <= c.end
    ensures CutOf(s, d).end == d.end && CutOf(s, d).repl == "" && EndsBlank(s, d)
  {
    var ls, le := LineStart(s.text, d.start), LineEnd(s.text, d.end);
    assert s.text[d.start] == '/';
    assert c.end < d.start;
    if d.end < le {
      assert s.text[d.end..le][0] == s.text[d.end];
    }
  }

  lemma FirstStays(text: string, from: nat, cuts: seq<Cut>)
    requires CutsOrdered(from, cuts, |text|) && cuts != [] && from < cuts[0].start
    ensures LeftToRight(text, from, cuts) != "" && LeftToRight(text, from, cuts)[0] == text[from]
  {
    var rest := LeftToRight(text, cuts[0].end, cuts[1..]);
    assert LeftToRight(text, from, cuts) == text[from..cuts[0].start] + cuts[0].repl + rest;
    hide LeftToRight;
  }

  lemma StartsWithSlash(s: Source, c: Comment)
    requires CommentOk(s, c)
    ensures s.text[c.start] == '/'
  {
  }

  lemma CommentsOkParts(s: Source, a: seq<Comment>, b: seq<Comment>)
    requires CommentsOk(s, a + b)
    ensures CommentsOk(s, a) && CommentsOk(s, b)
    ensures forall c, d :: c in a && d in b ==> c.end <= d.start
    ensures forall c :: c in a || c in b ==> c in a + b
  {
    hide CommentOk;
    AscendingParts(a, b);
  }

  /** The word of the lexer at `w` is followed at once by removed comments that touch.
      However the comments before and after them go, the word still ends there in the output
      exactly when what follows the comments would not continue a word, or when there is one
      comment, the word does not end in a dollar sign, and what follows does not start with
      one. Otherwise the word and what follows come out as one. */
  lemma WordsStayApartExactly(s: Source, w: nat, pre: seq<Comment>, run: seq<Comment>, rest: seq<Comment>)
    returns (out: string, before: string, tail: string)
    requires Sane(s.cls) && CommentsOk(s, pre + (run + rest)) && Touching(run)
    requires rest != [] ==> run[|run| - 1].end < rest[0].start
    requires w < |s.text| && WordChar(s.cls, s.text[w]) && WordEnd(s, w) == run[0].start
    requires forall c :: c in pre ==> c.end <= w
    ensures IsAround(s, w, pre, run, rest, out, before, tail)
    ensures out == before + s.text[w..run[0].start] + (if IsParted(s, run) then " " else "") + tail
    ensures WordEnd(s.(text := out), |before|) == |before| + (run[0].start - w)
        <==> !ContinuesWord(s.cls, s.text[run[|run| - 1].end..]) || IsParted(s, run)
  {
    var start, end := run[0].start, run[|run| - 1].end;
    hide CommentsOk, WordEnd, Gap, ContinuesWord, StandsSolid, WordChar, Touching, Sane, IsParted, IsAround;
    out, before, tail := OutputAroundRun(s, w, pre, run, rest);
    var word, gap := s.text[w..start], Gap(s, run);
    WordStands(s, w, start);
    TailContinues(s, w, pre, run, rest, out, before, tail);
    GapIs(s, run);
    var after := gap + tail;
    Regroup(before, word, gap, tail);
    WordEndsAt(s.(text := out), before, word, gap, tail, after);
  }

  lemma WordEndsAt(s: Source, before: string, word: string, gap: string, tail: string, after: string)
    requires Sane(s.cls) && s.text == before + word + after && after == gap + tail && (gap == "" || gap == " ")
    requires forall k :: 0 <= k < |word| ==> WordChar(s.cls, word[k]) || word[k] == '$'
    ensures WordEnd(s, |before|) == |before| + |word| <==> gap == " " || !ContinuesWord(s.cls, tail)
  {
    hide ContinuesWord, WordEnd, WordChar, Sane;
    WordEndsIn(s, before, word, after);
    GapThenTail(s.cls, gap, tail);
  }

  /** What the output is made of: what is left of the source before the word, and of the
      source after the run. */
  ghost predicate IsAround(s: Source, w: nat, pre: seq<Comment>, run: seq<Comment>, rest: seq<Comment>,
                           out: string, before: string, tail: string) {
    && w <= |s.text| && run != [] && w < run[0].start <= |s.text| && run[|run| - 1].end <= |s.text|
    && (forall c :: c in pre || c in rest ==> c in pre + (run + rest))
    && (forall c :: c in pre + (run + rest) ==> c.start <= c.end <= |s.text|)
    && IsOutput(s.text[..w], 0, CutsOf(s, pre), before)
    && IsOutput(s.text, run[|run| - 1].end, CutsOf(s, rest), tail)
    && IsOutput(s.text, 0, CutsOf(s, pre + (run + rest)), out)
  }

  ghost predicate IsOutput(text: string, from: nat, cuts: seq<Cut>, out: string) {
    CutsOrdered(from, cuts, |text|) && out == LeftToRight(text, from, cuts)
  }

  lemma TailContinues(s: Source, w: nat, pre: seq<Comment>, run: seq<Comment>, rest: seq<Comment>,
                      out: string, before: string, tail: string)
    requires Sane(s.cls) && CommentsOk(s, run + rest) && StandsSolid(s, run)
    requires rest != [] ==> run[|run| - 1].end < rest[0].start
    requires IsAround(s, w, pre, run, rest, out, before, tail)
    ensures w < run[0].start <= |s.text| && run[|run| - 1].end <= |s.text|
    ensures ContinuesWord(s.cls, tail) <==> ContinuesWord(s.cls, s.text[run[|run| - 1].end..])
  {
    hide CommentsOk, ContinuesWord, StandsSolid, CutsOrdered, LeftToRight, CutsOf;
    RunTail(s, run, rest);
  }

  /** The output in pieces: before the word, the word, the gap of the run, and what follows. */
  lemma OutputAroundRun(s: Source, w: nat, pre: seq<Comment>, run: seq<Comment>, rest: seq<Comment>)
    returns (out: string, before: string, tail: string)
    requires Sane(s.cls) && CommentsOk(s, pre + (run + rest)) && Touching(run)
    requires w < |s.text| && WordChar(s.cls, s.text[w]) && WordEnd(s, w) == run[0].start
    requires forall c :: c in pre ==> c.end <= w
    ensures CommentsOk(s, run + rest) && StandsSolid(s, run)
    ensures IsAround(s, w, pre, run, rest, out, before, tail)
    ensures out == before + s.text[w..run[0].start] + (Gap(s, run) + tail)
  {
    hide CutOf, CommentOk, Solid, CutsOf, LeftToRight, CutsOrdered, WordEnd, Gap, StandsSolid;
    var start := run[0].start;
    assert run[|run| - 1] in run + rest;
    WordStands(s, w, start);
    CommentsOkParts(s, pre, run + rest);
    WordIsSolid(s.cls, s.text[w]);
    RunFollowsWord(s, run);
    RunLeavesItsGap(s, start, run, rest);
    CutsBefore(s, pre, w);
    tail := LeftToRight(s.text, run[|run| - 1].end, CutsOf(s, rest));
    Pieces(s, w, pre, run + rest, start, Gap(s, run), tail);
    before := LeftToRight(s.text[..w], 0, CutsOf(s, pre));
    out := LeftToRight(s.text, 0, CutsOf(s, pre + (run + rest)));
  }

  lemma RunFollowsWord(s: Source, run: seq<Comment>)
    requires Sane(s.cls) && Touching(run) && 0 < run[0].start <= |s.text|
    requires WordChar(s.cls, s.text[run[0].start - 1]) || s.text[run[0].start - 1] == '$'
    ensures StandsSolid(s, run)
  {
    WordIsSolid(s.cls, s.text[run[0].start - 1]);
  }

  lemma GapThenTail(cls: CharClass, gap: string, tail: string)
    requires Sane(cls) && (gap == "" || gap == " ")
    ensures ContinuesWord(cls, gap + tail) <==> gap == "" && ContinuesWord(cls, tail)
  {
    DollarIsNoWord(cls);
    if gap == "" {
      assert gap + tail == tail;
    }
  }

  /** The gap after a word. */
  lemma GapIs(s: Source, run: seq<Comment>)
    requires Sane(s.cls) && run != [] && 0 < run[0].start <= |s.text| && run[|run| - 1].end <= |s.text|
    requires WordChar(s.cls, s.text[run[0].start - 1]) || s.text[run[0].start - 1] == '$'
    ensures
      Gap(s, run) == if IsParted(s, run) then " " else ""
  {
    DollarIsNoWord(s.cls);
    var end := run[|run| - 1].end;
    if end < |s.text| {
      assert s.text[end..][0] == s.text[end];
    }
  }

  lemma DollarIsNoWord(cls: CharClass)
    requires Sane(cls)
    ensures !WordChar(cls, '$') && !WordChar(cls, ' ')
  {
  }

  lemma WordStands(s: Source, w: nat, start: nat)
    requires w < |s.text| && WordChar(s.cls, s.text[w]) && WordEnd(s, w) == start
    ensures w < start <= |s.text|
    ensures forall k :: w <= k < start ==> WordChar(s.cls, s.text[k]) || s.text[k] == '$'
    ensures forall k :: 0 <= k < start - w ==> WordChar(s.cls, s.text[w..start][k]) || s.text[w..start][k] == '$'
  {
    forall k | w <= k < start ensures WordChar(s.cls, s.text[k]) || s.text[k] == '$' {
      WordHolds(s, w, k);
    }
  }

  /** The output in pieces: before the word, the word, the gap, and what follows. */
  lemma Pieces(s: Source, w: nat, pre: seq<Comment>, later: seq<Comment>, start: nat, gap: string, tail: string)
    requires w <= start <= |s.text| && forall c :: c in pre + later ==> c.start <= c.end <= |s.text|
    requires forall c :: c in pre || c in later ==> c in pre + later
    requires CutsOrdered(0, CutsOf(s, pre), w) && CutsOrdered(start, CutsOf(s, later), |s.text|)
    requires LeftToRight(s.text, start, CutsOf(s, later)) == s.text[start..start] + gap + tail
    ensures CutsOrdered(0, CutsOf(s, pre), |s.text[..w]|) && CutsOrdered(0, CutsOf(s, pre + later), |s.text|)
    ensures LeftToRight(s.text, 0, CutsOf(s, pre + later))
         == LeftToRight(s.text[..w], 0, CutsOf(s, pre)) + s.text[w..start] + (gap + tail)
  {
    hide CutOf, CutsOf, LeftToRight, CutsOrdered;
    var a, b := CutsOf(s, pre), CutsOf(s, later);
    CutsOfConcat(s, pre, later);
    LaterStart(s.text, w, start, b);
    SplitAt(s.text, 0, a, b, w);
    assert s.text[start..start] == "";
  }

  lemma LaterStart(text: string, w: nat, start: nat, cuts: seq<Cut>)
    requires w <= start <= |text| && CutsOrdered(start, cuts, |text|)
    ensures CutsOrdered(w, cuts, |text|)
    ensures LeftToRight(text, w, cuts) == text[w..start] + LeftToRight(text, start, cuts)
  {
    if cuts == [] {
      assert text[w..] == text[w..start] + text[start..];
    } else {
      var rest := LeftToRight(text, cuts[0].end, cuts[1..]);
      assert LeftToRight(text, w, cuts) == text[w..cuts[0].start] + cuts[0].repl + rest;
      assert LeftToRight(text, start, cuts) == text[start..cuts[0].start] + cuts[0].repl + rest;
      hide LeftToRight, CutsOrdered;
      assert text[w..cuts[0].start] == text[w..start] + text[start..cuts[0].start];
      Reassociate(text[w..start], text[start..cuts[0].start], cuts[0].repl, rest);
    }
  }

  /** What follows the run in the output continues a word iff it did so in the source. */
  lemma RunTail(s: Source, run: seq<Comment>, rest: seq<Comment>)
    requires Sane(s.cls) && CommentsOk(s, run + rest) && StandsSolid(s, run)
    requires rest != [] ==> run[|run| - 1].end < rest[0].start
    ensures run[|run| - 1].end <= |s.text| && forall c :: c in rest ==> c.start <= c.end <= |s.text|
    ensures CutsOrdered(run[|run| - 1].end, CutsOf(s, rest), |s.text|)
    ensures
      var end := run[|run| - 1].end;
      ContinuesWord(s.cls, LeftToRight(s.text, end, CutsOf(s, rest))) <==> ContinuesWord(s.cls, s.text[end..])
  {
    var last := run[|run| - 1];
    hide CutOf, CommentOk, CutsOf, LeftToRight, CutsOrdered, StandsSolid, Touching, Solid;
    LastOfRun(s, run, rest);
    if last.end < |s.text| {
      assert s.text[last.end..][0] == s.text[last.end];
    }
    if EndsBlank(s, last) {
      TailIsBlank(s, last, rest);
      SpaceIsNoWord(s.cls);
    } else {
      SolidFollows(s, last);
      TailStarts(s, last, rest);
    }
  }

  lemma SolidFollows(s: Source, c: Comment)
    requires !EndsBlank(s, c)
    ensures c.end < |s.text| && Solid(s.cls, s.text[c.end])
  {
  }

  /** The last comment of a run is cut out as it stands. */
  lemma LastOfRun(s: Source, run: seq<Comment>, rest: seq<Comment>)
    requires Sane(s.cls) && CommentsOk(s, run + rest) && StandsSolid(s, run)
    ensures
      var last := run[|run| - 1];
      && CommentsOk(s, [last] + rest) && last.start <= last.end <= |s.text| && CutOf(s, last).end == last.end
  {
    hide CutOf, CommentOk;
    var n := |run| - 1;
    var last := run[n];
    assert run + rest == run[..n] + ([last] + rest);
    CommentsOkParts(s, run[..n], [last] + rest);
    assert ([last] + rest)[0] in [last] + rest;
    assert last in run + rest;
    if n > 0 {
      assert run[n - 1] in run[..n] && run[n - 1] in run + rest;
      SlashBeforeNext(s, run[n - 1], last);
    }
    CommentsOkTail(s, [last] + rest);
    CutAfterSolid(s, last);
  }

  // ---- strip ----

  datatype Mode = All | Justifying

  /** The tool's two patterns, as predicates on a text. */
  datatype Patterns = Patterns(directive: string -> bool, justifies: string -> bool)

  function BlockText(s: Source, block: seq<Comment>): string
    requires InBounds(s, block)
  {
    if block == [] then ""
    else if |block| == 1 then s.text[block[0].start..block[0].end]
    else
      assert forall c :: c in block[1..] ==> c in block;
      s.text[block[0].start..block[0].end] + "\n" + BlockText(s, block[1..])
  }

  predicate IsDirective(s: Source, p: Patterns, block: seq<Comment>)
    requires InBounds(s, block)
  {
    exists k :: 0 <= k < |block| && p.directive(s.text[block[k].start..block[k].end])
  }

  predicate Selects(p: Patterns, mode: Mode, text: string) {
    mode == All || p.justifies(text)
  }

  /** A block goes when the mode selects it and no tool directive is in it. */
  predicate Goes(s: Source, p: Patterns, mode: Mode, block: seq<Comment>)
    requires InBounds(s, block)
  {
    !IsDirective(s, p, block) && Selects(p, mode, BlockText(s, block))
  }

  /** The blocks that go, in order. */
  function Chosen(s: Source, p: Patterns, mode: Mode, blocks: seq<seq<Comment>>): seq<seq<Comment>>
    requires forall k :: 0 <= k < |blocks| ==> InBounds(s, blocks[k])
  {
    if blocks == [] then []
    else
      var (rest, last) := (Chosen(s, p, mode, blocks[..|blocks| - 1]), blocks[|blocks| - 1]);
      if Goes(s, p, mode, last) then rest + [last] else rest
  }

  function Texts(s: Source, blocks: seq<seq<Comment>>): (r: seq<string>)
    requires forall k :: 0 <= k < |blocks| ==> InBounds(s, blocks[k])
    ensures |r| == |blocks|
  {
    seq(|blocks|, k requires 0 <= k < |blocks| => BlockText(s, blocks[k]))
  }

  lemma AscendingParts(a: seq<Comment>, b: seq<Comment>)
    ensures Ascending(a + b) <==>
              Ascending(a) && Ascending(b) && forall c, d :: c in a && d in b ==> c.end <= d.start
  {
    if Ascending(a + b) {
      forall i, j | 0 <= i < j < |a| ensures a[i].end <= a[j].start {
        assert (a + b)[i].end <= (a + b)[j].start;
      }
      forall i, j | 0 <= i < j < |b| ensures b[i].end <= b[j].start {
        assert (a + b)[|a| + i].end <= (a + b)[|a| + j].start;
      }
      forall c, d | c in a && d in b ensures c.end <= d.start {
        var i :| 0 <= i < |a| && a[i] == c;
        var j :| 0 <= j < |b| && b[j] == d;
        assert (a + b)[i].end <= (a + b)[|a| + j].start;
      }
    }
  }

  /** The comments that go keep their order, and are comments of the source. */
  lemma {:induction false} ChosenAreOk(s: Source, p: Patterns, mode: Mode, blocks: seq<seq<Comment>>)
    requires forall k :: 0 <= k < |blocks| ==> InBounds(s, blocks[k])
    requires CommentsOk(s, Flatten(blocks))
    ensures CommentsOk(s, Flatten(Chosen(s, p, mode, blocks)))
    ensures forall c :: c in Flatten(Chosen(s, p, mode, blocks)) ==> c in Flatten(blocks)
    ensures forall k :: 0 <= k < |Chosen(s, p, mode, blocks)| ==> InBounds(s, Chosen(s, p, mode, blocks)[k])
    decreases |blocks|
  {
    hide CommentOk, Ascending, Goes;
    if blocks == [] {
      assert Flatten<Comment>([]) == [];
    } else {
      var init, last := blocks[..|blocks| - 1], blocks[|blocks| - 1];
      AscendingParts(Flatten(init), last);
      ChosenAreOk(s, p, mode, init);
      FlattenAppend(Chosen(s, p, mode, init), last);
      AscendingParts(Flatten(Chosen(s, p, mode, init)), last);
    }
  }

  lemma CutsOfAppend(s: Source, a: seq<Comment>, c: Comment)
    requires forall d :: d in a + [c] ==> d.start <= d.end <= |s.text|
    ensures CutsOf(s, a + [c]) == CutsOf(s, a) + [CutOf(s, c)]
  {
    hide CutOf;
    if a != [] {
      assert (a + [c])[1..] == a[1..] + [c];
      CutsOfAppend(s, a[1..], c);
    }
  }

  /** The cuts sorted by their start, the last one first. */
  function SortedBackwards(cuts: seq<Cut>): seq<Cut> {
    if cuts == [] then [] else InsertBackwards(cuts[0], SortedBackwards(cuts[1..]))
  }

  function InsertBackwards(c: Cut, sorted: seq<Cut>): seq<Cut> {
    if sorted == [] || c.start > sorted[0].start then [c] + sorted
    else [sorted[0]] + InsertBackwards(c, sorted[1..])
  }

  function Reversed(cuts: seq<Cut>): seq<Cut> {
    if cuts == [] then [] else Reversed(cuts[1..]) + [cuts[0]]
  }

  lemma {:induction false} InsertAtEnd(c: Cut, sorted: seq<Cut>)
    requires forall d :: d in sorted ==> c.start <= d.start
    ensures InsertBackwards(c, sorted) == sorted + [c]
    decreases |sorted|
  {
    if sorted != [] {
      assert sorted[0] in sorted;
      InsertAtEnd(c, sorted[1..]);
    }
  }

  lemma {:induction false} ReversedMembers(cuts: seq<Cut>)
    ensures |Reversed(cuts)| == |cuts|
    ensures forall c :: c in Reversed(cuts) <==> c in cuts
    ensures forall i :: 0 <= i < |cuts| ==> Reversed(cuts)[i] == cuts[|cuts| - 1 - i]
  {
    if cuts != [] {
      ReversedMembers(cuts[1..]);
    }
  }

  lemma {:induction false} CutsStartAfter(from: nat, cuts: seq<Cut>, n: nat)
    requires CutsOrdered(from, cuts, n)
    ensures forall c :: c in cuts ==> from <= c.start <= c.end <= n
    decreases |cuts|
  {
    if cuts != [] {
      CutsStartAfter(cuts[0].end, cuts[1..], n);
    }
  }

  /** Ordered cuts are sorted backwards by reversing them. */
  lemma {:induction false} OrderedSortsToReverse(from: nat, cuts: seq<Cut>, n: nat)
    requires CutsOrdered(from, cuts, n)
    ensures SortedBackwards(cuts) == Reversed(cuts)
    decreases |cuts|
  {
    if cuts != [] {
      OrderedSortsToReverse(cuts[0].end, cuts[1..], n);
      CutsStartAfter(cuts[0].end, cuts[1..], n);
      ReversedMembers(cuts[1..]);
      InsertAtEnd(cuts[0], Reversed(cuts[1..]));
    }
  }

  function Resume(cuts: seq<Cut>, i: nat): nat
    requires i <= |cuts|
  {
    if i == 0 then 0 else cuts[i - 1].end
  }

  lemma {:induction false} CutsDrop(from: nat, cuts: seq<Cut>, n: nat, i: nat)
    requires CutsOrdered(from, cuts, n) && i < |cuts|
    ensures
      var at := if i == 0 then from else cuts[i - 1].end;
      at <= cuts[i].start <= cuts[i].end <= n && CutsOrdered(at, cuts[i..], n) && CutsOrdered(cuts[i].end, cuts[i + 1..], n)
    decreases i
  {
    if i == 0 {
      assert cuts[0..] == cuts;
    } else {
      CutsDrop(cuts[0].end, cuts[1..], n, i - 1);
      assert cuts[1..][i - 1..] == cuts[i..] && cuts[1..][i..] == cuts[i + 1..];
    }
  }

  /** One more cut from the right extends the part already spliced. */
  lemma SpliceStep(s: string, cuts: seq<Cut>, i: nat, out: string)
    requires CutsOrdered(0, cuts, |s|) && i < |cuts|
    requires cuts[i].end <= |s| && CutsOrdered(cuts[i].end, cuts[i + 1..], |s|)
    requires out == s[..cuts[i].end] + LeftToRight(s, cuts[i].end, cuts[i + 1..])
    ensures cuts[i].start <= cuts[i].end <= |out|
    ensures Resume(cuts, i) <= |s| && CutsOrdered(Resume(cuts, i), cuts[i..], |s|)
    ensures out[..cuts[i].start] + cuts[i].repl + out[cuts[i].end..]
         == s[..Resume(cuts, i)] + LeftToRight(s, Resume(cuts, i), cuts[i..])
  {
    hide LeftToRight, CutsOrdered, Resume;
    CutsDrop(0, cuts, |s|, i);
    var c := cuts[i];
    var at := if i == 0 then 0 else cuts[i - 1].end;
    ResumeIs(cuts, i);
    LeftToRightStep(s, cuts, i, at);
    SplicedText(s, at, c.start, c.end, c.repl, LeftToRight(s, c.end, cuts[i + 1..]), out);
  }

  lemma ResumeIs(cuts: seq<Cut>, i: nat)
    requires i < |cuts|
    ensures Resume(cuts, i) == if i == 0 then 0 else cuts[i - 1].end
  {
  }

  lemma LeftToRightStep(s: string, cuts: seq<Cut>, i: nat, at: nat)
    requires i < |cuts| && CutsOrdered(at, cuts[i..], |s|)
    ensures at <= cuts[i].start <= cuts[i].end <= |s| && CutsOrdered(cuts[i].end, cuts[i + 1..], |s|)
    ensures LeftToRight(s, at, cuts[i..])
         == s[at..cuts[i].start] + cuts[i].repl + LeftToRight(s, cuts[i].end, cuts[i + 1..])
  {
    assert cuts[i..][0] == cuts[i] && cuts[i..][1..] == cuts[i + 1..];
  }

  lemma SplicedText(s: string, at: nat, start: nat, end: nat, repl: string, tail: string, out: string)
    requires at <= start <= end <= |s| && out == s[..end] + tail
    ensures end <= |out| && out[..start] + repl + out[end..] == s[..at] + (s[at..start] + repl + tail)
  {
    assert out[..start] == s[..start] && out[end..] == tail;
    assert s[..start] == s[..at] + s[at..start];
    Reassociate(s[..at], s[at..start], repl, tail);
  }

  lemma LeftToRightNil(s: string, at: nat)
    requires at <= |s|
    ensures CutsOrdered(at, [], |s|) && s == s[..at] + LeftToRight(s, at, [])
  {
  }

  lemma {:induction false} LastCutEnds(from: nat, cuts: seq<Cut>, n: nat)
    requires CutsOrdered(from, cuts, n) && cuts != []
    ensures cuts[|cuts| - 1].end <= n
  {
    CutsDrop(from, cuts, n, |cuts| - 1);
  }

  /** The splice loop: back to front, so that the offsets to come stay true. It
      amounts to one deletion pass from the left. */
  method SpliceBackwards(s: string, cuts: seq<Cut>) returns (out: string)
    requires CutsOrdered(0, cuts, |s|)
    ensures out == LeftToRight(s, 0, cuts)
  {
    hide LeftToRight, CutsOrdered;
    var order := SortedBackwards(cuts);
    OrderedSortsToReverse(0, cuts, |s|);
    ReversedMembers(cuts);
    ghost var n := |cuts|;
    if cuts != [] {
      LastCutEnds(0, cuts, |s|);
    }
    LeftToRightNil(s, Resume(cuts, n));
    assert cuts[n..] == [];
    out := s;
    for k := 0 to |order|
      invariant |order| == n && order == Reversed(cuts)
      invariant Resume(cuts, n - k) <= |s| && CutsOrdered(Resume(cuts, n - k), cuts[n - k..], |s|)
      invariant out == s[..Resume(cuts, n - k)] + LeftToRight(s, Resume(cuts, n - k), cuts[n - k..])
    {
      var c := order[k];
      assert c == cuts[n - k - 1];
      SpliceStep(s, cuts, n - k - 1, out);
      out := out[..c.start] + c.repl + out[c.end..];
    }
    assert cuts[0..] == cuts && s[..0] == "";
  }

  /** The comments of a source, and its blocks. */
  function CommentsIn(s: Source): (r: seq<Comment>)
    ensures CommentsOk(s, r) && InBounds(s, r)
  {
    CommentsAreOk(s);
    OkIsInBounds(s, CommentsOf(Lexing(s)));
    CommentsOf(Lexing(s))
  }

  function BlocksIn(s: Source): (r: seq<seq<Comment>>)
    ensures IsGrouping(s, CommentsIn(s), r) && forall k :: 0 <= k < |r| ==> InBounds(s, r[k])
  {
    BlocksAreGrouping(s, CommentsIn(s));
    Blocks(s, CommentsIn(s))
  }

  /** The blocks that go, and their comments. */
  function GoneBlocks(s: Source, p: Patterns, mode: Mode): (r: seq<seq<Comment>>)
    ensures forall k :: 0 <= k < |r| ==> InBounds(s, r[k])
    ensures CommentsOk(s, Flatten(r)) && InBounds(s, Flatten(r))
  {
    ChosenAreOk(s, p, mode, BlocksIn(s));
    OkIsInBounds(s, Flatten(Chosen(s, p, mode, BlocksIn(s))));
    Chosen(s, p, mode, BlocksIn(s))
  }

  /** The comments that go. */
  function Gone(s: Source, p: Patterns, mode: Mode): (r: seq<Comment>)
    ensures CommentsOk(s, r) && InBounds(s, r)
  {
    Flatten(GoneBlocks(s, p, mode))
  }

  lemma GoneCutsAreOrdered(s: Source, p: Patterns, mode: Mode)
    requires Sane(s.cls)
    ensures CutsOrdered(0, CutsOf(s, Gone(s, p, mode)), |s.text|)
  {
    hide Gone, CutOf, CommentOk;
    if Gone(s, p, mode) != [] {
      CommentsOkTail(s, Gone(s, p, mode));
    }
    CutsAreOrdered(s, 0, Gone(s, p, mode));
  }

  // ---- Three sources whose words fuse ----

  lemma {:induction false} AllChosen(s: Source, p: Patterns, blocks: seq<seq<Comment>>)
    requires forall k :: 0 <= k < |blocks| ==> InBounds(s, blocks[k])
    requires forall text :: !p.directive(text)
    ensures Chosen(s, p, All, blocks) == blocks
    decreases |blocks|
  {
    if blocks != [] {
      AllChosen(s, p, blocks[..|blocks| - 1]);
      assert blocks == blocks[..|blocks| - 1] + [blocks[|blocks| - 1]];
    }
  }

  /** With no directive and every block selected, all comments go. */
  lemma AllGo(s: Source, p: Patterns)
    requires forall text :: !p.directive(text)
    ensures Gone(s, p, All) == CommentsIn(s)
  {
    AllChosen(s, p, BlocksIn(s));
  }

  /** Letters of a source without quotes, slashes or blanks make a word. */
  lemma WordComesNext(s: Source, tokens: seq<Token>, i: nat, e: nat)
    requires i < |s.text| && s.lang == TypeScript && WordChar(s.cls, s.text[i]) && WordEnd(s, i) == e
    requires s.text[i] == 'a' || s.text[i] == 'b'
    ensures i <= e <= |s.text|
    ensures CommentsOf(TilesFrom(s, tokens, [], i))
         == CommentsOf(TilesFrom(s, tokens + [Token(Word, s.text[i..e])], [], e))
  {
    hide WordEnd;
    var t := Lexeme(i, e, Word, false);
    assert i + 2 <= |s.text| ==> s.text[i..i + 2][0] == s.text[i];
    assert NextTile(s, tokens, [], i) == Some(t) && NextContext(s, [], t) == [];
    hide NextTile, NextContext;
    var rest := TilesFrom(s, tokens + TokenOf(s, t), [], e);
    assert TilesFrom(s, tokens, [], i) == [t] + rest;
    assert ([t] + rest)[1..] == rest;
  }

  lemma CommentComesNext(s: Source, tokens: seq<Token>, i: nat)
    requires i + 4 <= |s.text| && s.lang == TypeScript && s.text[i..i + 4] == "/**/"
    ensures CommentsOf(TilesFrom(s, tokens, [], i))
         == [Comment(i, i + 4, Block)] + CommentsOf(TilesFrom(s, tokens, [], i + 4))
  {
    var t := Remark(i, i + 4, Block);
    assert s.text[i] == s.text[i..i + 4][0] == '/' && s.text[i + 1] == s.text[i..i + 4][1] == '*';
    assert s.text[i..i + 2] == "/*" && s.text[i + 2..i + 4] == "*/" by {
      assert s.text[i..i + 2] == s.text[i..i + 4][..2] && s.text[i + 2..i + 4] == s.text[i..i + 4][2..];
    }
    assert BlockClose(s.text, false, 0, i + 4) == i + 4;
    assert NextTile(s, tokens, [], i) == Some(t) && NextContext(s, [], t) == [];
    hide NextTile, NextContext, BlockClose;
    var rest := TilesFrom(s, tokens, [], i + 4);
    assert tokens + TokenOf(s, t) == tokens;
    assert TilesFrom(s, tokens, [], i) == [t] + rest;
    assert ([t] + rest)[1..] == rest;
  }

  /** Two touching comments, removed by the tool: the two words come out as one. */
  lemma TwoCommentsFuse(cls: CharClass, p: Patterns)
    requires Sane(cls) && cls.alnum('a') && cls.alnum('b') && forall text :: !p.directive(text)
    ensures
      var s := Source("a/**//**/b", TypeScript, cls);
      && Gone(s, p, All) == [Comment(1, 5, Block), Comment(5, 9, Block)]
      && CutsOrdered(0, CutsOf(s, Gone(s, p, All)), |s.text|)
      && LeftToRight(s.text, 0, CutsOf(s, Gone(s, p, All))) == "ab"
  {
    hide Gone, CutOf, CutsOf, LeftToRight, CutsOrdered, TilesFrom, CommentsOf, CommentOk;
    var s := Source("a/**//**/b", TypeScript, cls);
    assert WordEnd(s, 0) == 1 && WordEnd(s, 9) == 10;
    WordComesNext(s, [], 0, 1);
    var tokens := [] + [Token(Word, s.text[0..1])];
    CommentComesNext(s, tokens, 1);
    CommentComesNext(s, tokens, 5);
    WordComesNext(s, tokens, 9, 10);
    NothingComesNext(s, tokens + [Token(Word, s.text[9..10])]);
    var run := [Comment(1, 5, Block), Comment(5, 9, Block)];
    assert CommentsIn(s) == run;
    AllGo(s, p);
    OneRunOnly(s, run);
  }

  /** One comment after a word that ends in a dollar sign: they come out as one, too. */
  lemma DollarWordsFuse(cls: CharClass, p: Patterns)
    requires Sane(cls) && cls.alnum('a') && cls.alnum('b') && forall text :: !p.directive(text)
    ensures
      var s := Source("a$/**/b", TypeScript, cls);
      && Gone(s, p, All) == [Comment(2, 6, Block)]
      && CutsOrdered(0, CutsOf(s, Gone(s, p, All)), |s.text|)
      && LeftToRight(s.text, 0, CutsOf(s, Gone(s, p, All))) == "a$b"
  {
    hide Gone, CutOf, CutsOf, LeftToRight, CutsOrdered, TilesFrom, CommentsOf, CommentOk;
    var s := Source("a$/**/b", TypeScript, cls);
    assert WordEnd(s, 2) == 2 && WordEnd(s, 1) == 2 && WordEnd(s, 0) == 2 && WordEnd(s, 7) == 7 && WordEnd(s, 6) == 7;
    WordComesNext(s, [], 0, 2);
    var tokens := [] + [Token(Word, s.text[0..2])];
    CommentComesNext(s, tokens, 2);
    WordComesNext(s, tokens, 6, 7);
    NothingComesNext(s, tokens + [Token(Word, s.text[6..7])]);
    var run := [Comment(2, 6, Block)];
    assert CommentsIn(s) == run;
    AllGo(s, p);
    OneRunOnly(s, run);
  }

  /** One comment before a dollar sign: it ends up inside the word. */
  lemma DollarIsJoined(cls: CharClass, p: Patterns)
    requires Sane(cls) && cls.alnum('a') && cls.alnum('b') && forall text :: !p.directive(text)
    ensures
      var s := Source("a/**/$b", TypeScript, cls);
      && Gone(s, p, All) == [Comment(1, 5, Block)]
      && CutsOrdered(0, CutsOf(s, Gone(s, p, All)), |s.text|)
      && LeftToRight(s.text, 0, CutsOf(s, Gone(s, p, All))) == "a$b"
  {
    hide Gone, CutOf, CutsOf, LeftToRight, CutsOrdered, TilesFrom, CommentsOf, CommentOk;
    var s := Source("a/**/$b", TypeScript, cls);
    assert WordEnd(s, 1) == 1 && WordEnd(s, 0) == 1 && WordEnd(s, 7) == 7 && WordEnd(s, 6) == 7;
    WordComesNext(s, [], 0, 1);
    var tokens := [] + [Token(Word, s.text[0..1])];
    CommentComesNext(s, tokens, 1);
    DollarComesNext(s, tokens, 5);
    var more := tokens + [Token(Punct, s.text[5..6])];
    WordComesNext(s, more, 6, 7);
    NothingComesNext(s, more + [Token(Word, s.text[6..7])]);
    var run := [Comment(1, 5, Block)];
    assert CommentsIn(s) == run;
    AllGo(s, p);
    OneRunOnly(s, run);
  }

  lemma DollarComesNext(s: Source, tokens: seq<Token>, i: nat)
    requires Sane(s.cls) && i < |s.text| && s.lang == TypeScript && s.text[i] == '$'
    ensures CommentsOf(TilesFrom(s, tokens, [], i))
         == CommentsOf(TilesFrom(s, tokens + [Token(Punct, s.text[i..i + 1])], [], i + 1))
  {
    var t := Lexeme(i, i + 1, Punct, false);
    assert i + 2 <= |s.text| ==> s.text[i..i + 2][0] == s.text[i];
    assert NextTile(s, tokens, [], i) == Some(t) && NextContext(s, [], t) == [];
    hide NextTile, NextContext;
    var rest := TilesFrom(s, tokens + TokenOf(s, t), [], i + 1);
    assert TilesFrom(s, tokens, [], i) == [t] + rest;
    assert ([t] + rest)[1..] == rest;
  }

  lemma NothingComesNext(s: Source, tokens: seq<Token>)
    ensures CommentsOf(TilesFrom(s, tokens, [], |s.text|)) == []
  {
  }

  /** A word at the start, and one run of comments. */
  lemma OneRunOnly(s: Source, run: seq<Comment>)
    requires Sane(s.cls) && CommentsOk(s, run) && Touching(run)
    requires 0 < |s.text| && WordChar(s.cls, s.text[0]) && WordEnd(s, 0) == run[0].start
    ensures run[0].start > 0 && run[|run| - 1].end <= |s.text| && forall c :: c in run ==> c.start <= c.end <= |s.text|
    ensures CutsOrdered(0, CutsOf(s, run), |s.text|)
    ensures LeftToRight(s.text, 0, CutsOf(s, run)) == s.text[0..run[0].start] + Gap(s, run) + s.text[run[|run| - 1].end..]
  {
    hide CutOf, CutsOf, LeftToRight, CutsOrdered, CommentOk, WordEnd, Solid, Gap;
    WordStands(s, 0, run[0].start);
    WordIsSolid(s.cls, s.text[run[0].start - 1]);
    assert run + [] == run;
    RunLeavesItsGap(s, 0, run, []);
    assert run[|run| - 1] in run;
    CutsOfNothing(s);
    NoCuts(s.text, run[|run| - 1].end);
  }

  lemma NoCuts(text: string, at: nat)
    requires at <= |text|
    ensures CutsOrdered(at, [], |text|) && LeftToRight(text, at, []) == text[at..]
  {
  }

  /** Remove the blocks the mode selects: the answer is the source without their cuts, and
      loses nothing but their comments and whitespace. */
  method Strip(s: Source, p: Patterns, mode: Mode) returns (out: string, removed: seq<string>)
    requires Sane(s.cls)
    ensures removed == Texts(s, GoneBlocks(s, p, mode))
    ensures CutsOrdered(0, CutsOf(s, Gone(s, p, mode)), |s.text|)
    ensures out == LeftToRight(s.text, 0, CutsOf(s, Gone(s, p, mode)))
    ensures Visible(s.cls, out) == Visible(s.cls, Outside(s.text, 0, Gone(s, p, mode)))
  {
    hide Lexing, CommentsOf, CommentOk, Ascending, Goes, BlockText, CutOf, CutsOrdered, LeftToRight, Visible, Outside;
    hide Flatten, Chosen, CutsOf, Texts, Blocks;
    var comments, tokens := Lex(s);
    assert comments == CommentsIn(s);
    var blocks := CommentBlocks(s, comments);
    assert blocks == BlocksIn(s);
    assert Gone(s, p, mode) == Flatten(Chosen(s, p, mode, blocks));
    var cuts;
    cuts, removed := CollectCuts(s, p, mode, blocks);
    GoneCutsAreOrdered(s, p, mode);
    out := SpliceBackwards(s.text, cuts);
    assert s.text[0..0] == "";
    SpliceLosesOnlyComments(s, 0, 0, Gone(s, p, mode));
  }

  lemma OkIsInBounds(s: Source, comments: seq<Comment>)
    requires CommentsOk(s, comments)
    ensures InBounds(s, comments)
  {
  }

  lemma CutsOfConcat(s: Source, a: seq<Comment>, b: seq<Comment>)
    requires forall d :: d in a + b ==> d.start <= d.end <= |s.text|
    ensures forall d :: d in a ==> d.start <= d.end <= |s.text|
    ensures forall d :: d in b ==> d.start <= d.end <= |s.text|
    ensures CutsOf(s, a + b) == CutsOf(s, a) + CutsOf(s, b)
    decreases |a|
  {
    hide CutOf;
    assert forall d :: d in a || d in b ==> d in a + b;
    if a == [] {
      assert a + b == b;
    } else {
      assert (a + b)[1..] == a[1..] + b;
      CutsOfConcat(s, a[1..], b);
    }
  }

  /** The cuts of one block. */
  method CutBlock(s: Source, block: seq<Comment>) returns (cuts: seq<Cut>)
    requires forall c :: c in block ==> c.start <= c.end <= |s.text|
    ensures cuts == CutsOf(s, block)
  {
    hide CutOf, CutsOf;
    cuts := [];
    CutsOfNothing(s);
    for i := 0 to |block|
      invariant forall c :: c in block[..i] ==> c.start <= c.end <= |s.text|
      invariant cuts == CutsOf(s, block[..i])
    {
      assert block[i] in block;
      var cut := CutFor(s, block[i]);
      assert block[..i + 1] == block[..i] + [block[i]];
      CutsOfAppend(s, block[..i], block[i]);
      cuts := cuts + [cut];
    }
    assert block[..|block|] == block;
  }

  lemma NothingChosen(s: Source, p: Patterns, mode: Mode)
    ensures Chosen(s, p, mode, []) == [] && Flatten<Comment>([]) == [] && Texts(s, []) == []
  {
  }

  lemma ChosenStep(s: Source, p: Patterns, mode: Mode, blocks: seq<seq<Comment>>, n: nat)
    requires n < |blocks| && forall k :: 0 <= k < |blocks| ==> InBounds(s, blocks[k])
    ensures Chosen(s, p, mode, blocks[..n + 1])
         == Chosen(s, p, mode, blocks[..n]) + if Goes(s, p, mode, blocks[n]) then [blocks[n]] else []
    ensures Flatten(Chosen(s, p, mode, blocks[..n + 1]))
         == Flatten(Chosen(s, p, mode, blocks[..n])) + if Goes(s, p, mode, blocks[n]) then blocks[n] else []
  {
    hide Goes, InBounds;
    assert blocks[..n + 1][..n] == blocks[..n];
    FlattenAppend(Chosen(s, p, mode, blocks[..n]), blocks[n]);
  }

  lemma {:induction false} ChosenInBounds(s: Source, p: Patterns, mode: Mode, blocks: seq<seq<Comment>>, n: nat)
    requires n <= |blocks| && forall k :: 0 <= k < |blocks| ==> InBounds(s, blocks[k])
    ensures forall k :: 0 <= k < |Chosen(s, p, mode, blocks[..n])| ==> InBounds(s, Chosen(s, p, mode, blocks[..n])[k])
    ensures forall c :: c in Flatten(Chosen(s, p, mode, blocks[..n])) ==> c.start <= c.end <= |s.text|
    decreases n
  {
    if n == 0 {
      assert Flatten<Comment>([]) == [];
    } else {
      hide Goes, Flatten, Chosen;
      ChosenInBounds(s, p, mode, blocks, n - 1);
      ChosenStep(s, p, mode, blocks, n - 1);
    }
  }

  lemma TextsAppend(s: Source, blocks: seq<seq<Comment>>, block: seq<Comment>)
    requires (forall k :: 0 <= k < |blocks| ==> InBounds(s, blocks[k])) && InBounds(s, block)
    ensures Texts(s, blocks + [block]) == Texts(s, blocks) + [BlockText(s, block)]
  {
    hide BlockText, InBounds;
  }

  /** The loop over the blocks that gathers the cuts and the removed texts. */
  method CollectCuts(s: Source, p: Patterns, mode: Mode, blocks: seq<seq<Comment>>)
    returns (cuts: seq<Cut>, removed: seq<string>)
    requires forall k :: 0 <= k < |blocks| ==> InBounds(s, blocks[k])
    requires InBounds(s, Flatten(Chosen(s, p, mode, blocks)))
    requires forall k :: 0 <= k < |Chosen(s, p, mode, blocks)| ==> InBounds(s, Chosen(s, p, mode, blocks)[k])
    ensures cuts == CutsOf(s, Flatten(Chosen(s, p, mode, blocks)))
    ensures removed == Texts(s, Chosen(s, p, mode, blocks))
  {
    hide CutOf, BlockText, Goes, CutsOf, Chosen, Flatten, Texts;
    cuts, removed := [], [];
    CutsOfNothing(s);
    NothingChosen(s, p, mode);
    assert blocks[..0] == [];
    for n := 0 to |blocks|
      invariant forall k :: 0 <= k < |Chosen(s, p, mode, blocks[..n])| ==> InBounds(s, Chosen(s, p, mode, blocks[..n])[k])
      invariant forall c :: c in Flatten(Chosen(s, p, mode, blocks[..n])) ==> c.start <= c.end <= |s.text|
      invariant cuts == CutsOf(s, Flatten(Chosen(s, p, mode, blocks[..n])))
      invariant removed == Texts(s, Chosen(s, p, mode, blocks[..n]))
    {
      var block := blocks[n];
      ChosenStep(s, p, mode, blocks, n);
      ChosenInBounds(s, p, mode, blocks, n + 1);
      if Goes(s, p, mode, block) {
        TextsAppend(s, Chosen(s, p, mode, blocks[..n]), block);
        CutsOfConcat(s, Flatten(Chosen(s, p, mode, blocks[..n])), block);
        removed := removed + [BlockText(s, block)];
        var more := CutBlock(s, block);
        cuts := cuts + more;
      } else {
        assert Chosen(s, p, mode, blocks[..n + 1]) == Chosen(s, p, mode, blocks[..n]);
      }
    }
    assert blocks[..|blocks|] == blocks;
  }

  lemma CutsOfNothing(s: Source)
    ensures CutsOf(s, []) == []
  {
  }
}
