/** What the stripper of scripts/eval-comments/strip_comments.py takes out, said without its own
    helpers; and what is left of a source that was written line by line. */
module StripMeaning {
  import opened Strings
  import opened Wrappers
  import opened Lexemes
  import opened CommentLexer
  import opened CommentStripper
  import opened LexemeEnds
  import opened WrittenSources

  // ---- The cut of a comment ----

  /** White space only, and all on one line. */
  ghost predicate IsBlankLine(s: Source, a: nat, b: nat) {
    a <= b <= |s.text| && forall k :: a <= k < b ==> s.cls.space(s.text[k]) && s.text[k] != '\n'
  }

  predicate StartsLine(t: string, i: nat) { i <= |t| && (i == 0 || t[i - 1] == '\n') }

  predicate EndsLine(t: string, i: nat) { i <= |t| && (i == |t| || t[i] == '\n') }

  /** There is nothing but white space on the comment's first line before it, from `a` on, and
      on its last line after it, up to `b`. */
  ghost predicate StandsAlone(s: Source, c: Comment, a: nat, b: nat) {
    && a <= c.start <= c.end <= b && StartsLine(s.text, a) && EndsLine(s.text, b)
    && IsBlankLine(s, a, c.start) && IsBlankLine(s, c.end, b)
  }

  /** Only white space follows the comment on its last line. */
  ghost predicate IsLast(s: Source, c: Comment) {
    exists b: nat :: EndsLine(s.text, b) && IsBlankLine(s, c.end, b)
  }

  ghost predicate IsAlone(s: Source, c: Comment) {
    exists a: nat, b: nat :: StandsAlone(s, c, a, b)
  }

  lemma FullLineIsAlone(s: Source, c: Comment)
    requires c.start <= c.end <= |s.text|
    ensures IsFullLine(s, c) <==> StandsAlone(s, c, LineStart(s.text, c.start), LineEnd(s.text, c.end))
  {
    var ls, le := LineStart(s.text, c.start), LineEnd(s.text, c.end);
    SpacesStand(s, ls, c.start);
    SpacesStand(s, c.end, le);
  }

  lemma SpacesStand(s: Source, a: nat, b: nat)
    requires a <= b <= |s.text| && forall k :: a <= k < b ==> s.text[k] != '\n'
    ensures StripsToNothing(s.cls, s.text[a..b]) <==> IsBlankLine(s, a, b)
  {
    var t := s.text[a..b];
    assert forall k :: a <= k < b ==> s.text[k] == t[k - a];
  }

  lemma StandsAloneOnce(s: Source, c: Comment, a: nat, b: nat)
    requires StandsAlone(s, c, a, b)
    ensures a == LineStart(s.text, c.start) && b == LineEnd(s.text, c.end)
  {
  }

  /** A comment alone on its lines goes with them, the line feed at their end included. One at
      the end of a line goes with the blanks before it. Any other goes as it stands, and leaves
      a space where it parts two words. */
  lemma CutIsExact(s: Source, c: Comment)
    requires Sane(s.cls) && c.start <= c.end <= |s.text|
    ensures forall a: nat, b: nat :: StandsAlone(s, c, a, b) ==>
      CutOf(s, c) == Cut(a, if b < |s.text| then b + 1 else b, "")
    ensures !IsAlone(s, c) && IsLast(s, c) ==>
      var cut := CutOf(s, c);
      && cut.start <= c.start && cut.end == c.end && cut.repl == ""
      && (forall k :: cut.start <= k < c.start ==> s.text[k] == ' ' || s.text[k] == '\t')
      && (cut.start > 0 ==> s.text[cut.start - 1] != ' ' && s.text[cut.start - 1] != '\t')
    ensures !IsLast(s, c) ==>
      CutOf(s, c) == Cut(c.start, c.end, if 0 < c.start && Fuses(s, c.start, c.end) then " " else "")
  {
    AloneIsFullLine(s, c);
    hide CutOf, IsFullLine, Fuses, IsLast, IsAlone, StandsAlone;
    forall a: nat, b: nat | StandsAlone(s, c, a, b)
      ensures CutOf(s, c) == Cut(a, if b < |s.text| then b + 1 else b, "")
    {
      AloneIsCut(s, c, a, b);
    }
    if !IsAlone(s, c) && IsLast(s, c) {
      LastIsCut(s, c);
    }
    if !IsLast(s, c) {
      InlineIsCut(s, c);
    }
  }

  lemma AloneIsCut(s: Source, c: Comment, a: nat, b: nat)
    requires c.start <= c.end <= |s.text| && StandsAlone(s, c, a, b)
    ensures CutOf(s, c) == Cut(a, if b < |s.text| then b + 1 else b, "")
  {
    FullLineIsAlone(s, c);
    StandsAloneOnce(s, c, a, b);
    hide IsFullLine, LineStart, LineEnd, StandsAlone, StripsToNothing;
  }

  lemma LastIsCut(s: Source, c: Comment)
    requires c.start <= c.end <= |s.text| && !IsFullLine(s, c) && IsLast(s, c)
    ensures
      var cut := CutOf(s, c);
      && cut.start <= c.start && cut.end == c.end && cut.repl == ""
      && (forall k :: cut.start <= k < c.start ==> s.text[k] == ' ' || s.text[k] == '\t')
      && (cut.start > 0 ==> s.text[cut.start - 1] != ' ' && s.text[cut.start - 1] != '\t')
  {
    var ls, le := LineStart(s.text, c.start), LineEnd(s.text, c.end);
    hide IsFullLine, StripsToNothing, TrimBack;
    LastIsLineEnd(s, c);
    SpacesStand(s, c.end, le);
    TrimStops(s.text, ls, c.start);
  }

  lemma LastIsLineEnd(s: Source, c: Comment)
    requires c.start <= c.end <= |s.text|
    ensures IsLast(s, c) <==> IsBlankLine(s, c.end, LineEnd(s.text, c.end))
  {
    var le := LineEnd(s.text, c.end);
    hide LineEnd;
    assert EndsLine(s.text, le);
    if IsLast(s, c) {
      var b: nat :| EndsLine(s.text, b) && IsBlankLine(s, c.end, b);
      assert b == le;
    }
  }

  lemma InlineIsCut(s: Source, c: Comment)
    requires Sane(s.cls) && c.start <= c.end <= |s.text| && !IsLast(s, c)
    ensures CutOf(s, c) == Cut(c.start, c.end, if 0 < c.start && Fuses(s, c.start, c.end) then " " else "")
  {
    LastIsLineEnd(s, c);
    SpacesStand(s, c.end, LineEnd(s.text, c.end));
    hide IsLast, IsBlankLine, LineStart, LineEnd, StripsToNothing;
  }

  lemma {:induction false} TrimStops(t: string, floor: nat, i: nat)
    requires floor <= i <= |t| && (floor > 0 ==> t[floor - 1] == '\n')
    ensures
      var r := TrimBack(t, floor, i);
      r > 0 ==> t[r - 1] != ' ' && t[r - 1] != '\t'
    decreases i
  {
    if i > floor && (t[i - 1] == ' ' || t[i - 1] == '\t') {
      TrimStops(t, floor, i - 1);
    }
  }

  // ---- The blocks, and which of them go ----

  /** The comment at `c` starts on the line after the one that ends at `i`. */
  ghost predicate OnNextLine(t: string, i: nat, j: nat) {
    exists k: nat :: i <= k < j <= |t| && t[k] == '\n' && forall m :: i <= m < j && m != k ==> t[m] != '\n'
  }

  lemma {:induction false} LineNumberGrows(t: string, i: nat, j: nat)
    requires i <= j <= |t|
    ensures LineNumber(t, i) <= LineNumber(t, j)
    ensures LineNumber(t, i) == LineNumber(t, j) <==> forall m :: i <= m < j ==> t[m] != '\n'
    decreases j
  {
    if i < j {
      LineNumberGrows(t, i, j - 1);
    }
  }

  lemma {:induction false} NextLineIsExact(t: string, i: nat, j: nat)
    requires i <= j <= |t|
    ensures LineNumber(t, j) == LineNumber(t, i) + 1 <==> OnNextLine(t, i, j)
    decreases j
  {
    if i < j {
      if t[j - 1] == '\n' {
        LineNumberGrows(t, i, j - 1);
        if LineNumber(t, j) == LineNumber(t, i) + 1 {
          assert forall m :: i <= m < j && m != j - 1 ==> t[m] != '\n';
          assert OnNextLine(t, i, j);
        }
      } else {
        NextLineIsExact(t, i, j - 1);
        if OnNextLine(t, i, j - 1) {
          var k: nat :| i <= k < j - 1 <= |t| && t[k] == '\n' && forall m :: i <= m < j - 1 && m != k ==> t[m] != '\n';
          assert t[k] == '\n' && forall m :: i <= m < j && m != k ==> t[m] != '\n';
        }
      }
    }
  }

  /** As far into its line as the other one. */
  ghost predicate IsAligned(t: string, i: nat, j: nat) {
    exists a: nat, b: nat :: IsLineOf(t, a, i) && IsLineOf(t, b, j) && i - a == j - b
  }

  ghost predicate IsLineOf(t: string, a: nat, i: nat) {
    a <= i && StartsLine(t, a) && i <= |t| && forall k :: a <= k < i ==> t[k] != '\n'
  }

  /** A comment continues a block iff it is a line comment, alone on its line, right on the line
      after the comment before it, and that one is alone on its lines too or starts as far in. */
  lemma JoinsIsExact(s: Source, prev: Comment, c: Comment)
    requires prev.start <= prev.end <= c.start <= c.end <= |s.text|
    ensures Joins(s, prev, c) <==>
      && c.kind == Line && IsAlone(s, c) && OnNextLine(s.text, prev.end, c.start)
      && (IsAlone(s, prev) || IsAligned(s.text, c.start, prev.start))
  {
    AloneIsFullLine(s, c);
    AloneIsFullLine(s, prev);
    NextLineIsExact(s.text, prev.end, c.start);
    AlignedIsColumn(s.text, c.start, prev.start);
    hide IsAlone, IsFullLine, OnNextLine, LineNumber, IsAligned, LineStart;
  }

  lemma AlignedIsColumn(t: string, i: nat, j: nat)
    requires i <= |t| && j <= |t|
    ensures IsAligned(t, i, j) <==> i - LineStart(t, i) == j - LineStart(t, j)
  {
    var a, b := LineStart(t, i), LineStart(t, j);
    hide LineStart;
    assert IsLineOf(t, a, i) && IsLineOf(t, b, j);
    if IsAligned(t, i, j) {
      var x: nat, y: nat :| IsLineOf(t, x, i) && IsLineOf(t, y, j) && i - x == j - y;
      assert x == a && y == b;
    }
  }

  lemma AloneIsFullLine(s: Source, c: Comment)
    requires c.start <= c.end <= |s.text|
    ensures IsFullLine(s, c) <==> IsAlone(s, c)
  {
    FullLineIsAlone(s, c);
    if a: nat, b: nat :| StandsAlone(s, c, a, b) {
      StandsAloneOnce(s, c, a, b);
    }
  }

  /** A block's text: the comments' texts, one a line. */
  lemma {:induction false} BlockTextGrows(s: Source, block: seq<Comment>, c: Comment)
    requires block != [] && InBounds(s, block + [c])
    ensures InBounds(s, block) && c.start <= c.end <= |s.text|
    ensures BlockText(s, block + [c]) == BlockText(s, block) + "\n" + s.text[c.start..c.end]
    decreases |block|
  {
    assert forall d :: d in block || d == c ==> d in block + [c];
    if |block| == 1 {
      assert (block + [c])[1..] == [c];
    } else {
      assert (block + [c])[1..] == block[1..] + [c];
      BlockTextGrows(s, block[1..], c);
      var head, tail := s.text[block[0].start..block[0].end], BlockText(s, block[1..]);
      assert BlockText(s, block) == head + "\n" + tail;
      assert head + "\n" + (tail + "\n" + s.text[c.start..c.end]) == head + "\n" + tail + "\n" + s.text[c.start..c.end];
    }
  }

  /** The block goes: no comment of it matches a directive, and in the justifying mode its text
      matches the other pattern. */
  ghost predicate Leaves(s: Source, p: Patterns, mode: Mode, block: seq<Comment>)
    requires InBounds(s, block)
  {
    && (forall c :: c in block ==> !p.directive(s.text[c.start..c.end]))
    && (mode == Justifying ==> p.justifies(BlockText(s, block)))
  }

  lemma LeavesIsGoes(s: Source, p: Patterns, mode: Mode, block: seq<Comment>)
    requires InBounds(s, block)
    ensures Goes(s, p, mode, block) <==> Leaves(s, p, mode, block)
  {
  }

  /** The comment is in a block that leaves. */
  ghost predicate InLeavingBlock(s: Source, p: Patterns, mode: Mode, blocks: seq<seq<Comment>>, c: Comment)
    requires forall k :: 0 <= k < |blocks| ==> InBounds(s, blocks[k])
  {
    exists k: nat :: k < |blocks| && c in blocks[k] && Leaves(s, p, mode, blocks[k])
  }

  lemma {:induction false} ChosenExactly(s: Source, p: Patterns, mode: Mode, blocks: seq<seq<Comment>>, c: Comment)
    requires forall k :: 0 <= k < |blocks| ==> InBounds(s, blocks[k])
    ensures c in Flatten(Chosen(s, p, mode, blocks)) <==> InLeavingBlock(s, p, mode, blocks, c)
    decreases |blocks|
  {
    hide Goes, Leaves;
    if blocks == [] {
      assert Flatten<Comment>([]) == [];
    } else {
      var n := |blocks| - 1;
      var init, last := blocks[..n], blocks[n];
      ChosenExactly(s, p, mode, init, c);
      LeavesIsGoes(s, p, mode, last);
      FlattenAppend(Chosen(s, p, mode, init), last);
      if InLeavingBlock(s, p, mode, init, c) {
        var k: nat :| k < |init| && c in init[k] && Leaves(s, p, mode, init[k]);
        assert c in blocks[k] && Leaves(s, p, mode, blocks[k]);
      }
      if c in last && Leaves(s, p, mode, last) {
        assert c in blocks[n] && Leaves(s, p, mode, blocks[n]);
      }
      if InLeavingBlock(s, p, mode, blocks, c) {
        var k: nat :| k < |blocks| && c in blocks[k] && Leaves(s, p, mode, blocks[k]);
        assert k < n ==> init[k] == blocks[k];
      }
    }
  }

  /** A comment goes iff it is in a block of the source that leaves. */
  lemma GoneExactly(s: Source, p: Patterns, mode: Mode, c: Comment)
    ensures c in Gone(s, p, mode) <==> InLeavingBlock(s, p, mode, BlocksIn(s), c)
  {
    ChosenExactly(s, p, mode, BlocksIn(s), c);
  }

  // ---- A source written line by line ----

  function NotesOf(pieces: seq<Piece>, i: nat): seq<Comment> {
    CommentsOf(TilesOf(pieces, i))
  }

  lemma NotesOfCons(pieces: seq<Piece>, i: nat)
    requires pieces != []
    ensures
      var e := i + |Written(pieces[0])|;
      NotesOf(pieces, i) == CommentIn(TileOf(pieces[0], i)) + NotesOf(pieces[1..], e + 1)
  {
    var e := i + |Written(pieces[0])|;
    TilesOfCons(pieces, i);
    hide TilesOf;
    CommentsCons(TileOf(pieces[0], i), Space(e, e + 1), TilesOf(pieces[1..], e + 1));
  }

  lemma NoteIsAlone(s: Source, c: Comment)
    requires c.start <= c.end < |s.text| && s.text[c.end] == '\n' && (c.start > 0 ==> s.text[c.start - 1] == '\n')
    ensures CutOf(s, c) == Cut(c.start, c.end + 1, "")
  {
    AloneIsCut(s, c, c.start, c.end);
  }

  /** Cutting these comments out leaves that text of the source from `i` on. */
  ghost predicate LeavesText(s: Source, comments: seq<Comment>, i: nat, out: string) {
    && (forall c :: c in comments ==> i <= c.start <= c.end <= |s.text|)
    && CutsOrdered(i, CutsOf(s, comments), |s.text|)
    && LeftToRight(s.text, i, CutsOf(s, comments)) == out
  }

  /** Cutting the pieces' notes out leaves the pieces without them. */
  ghost predicate IsRest(s: Source, pieces: seq<Piece>, i: nat) {
    LeavesText(s, NotesOf(pieces, i), i, AllWritten(WithoutNotes(pieces)))
  }

  lemma {:induction false} NotesAreCutOut(s: Source, pieces: seq<Piece>, i: nat)
    requires IsWrittenFrom(s.text, i, pieces)
    ensures IsRest(s, pieces, i)
    decreases |pieces|
  {
    hide IsRest, IsWrittenFrom;
    if pieces == [] {
      NothingIsRest(s, i);
    } else {
      FirstStands(s.text, i, pieces);
      NotesAreCutOut(s, pieces[1..], i + |Written(pieces[0])| + 1);
      PieceIsRest(s, pieces, i);
    }
  }

  lemma NothingIsRest(s: Source, i: nat)
    requires IsWrittenFrom(s.text, i, [])
    ensures IsRest(s, [], i)
  {
    assert |s.text[i..]| == 0;
    NoCuts(s.text, i);
  }

  lemma PieceIsRest(s: Source, pieces: seq<Piece>, i: nat)
    requires pieces != [] && At(s.text, i, Written(pieces[0]) + ['\n']) && (i > 0 ==> s.text[i - 1] == '\n')
    requires i + |Written(pieces[0])| < |s.text| && s.text[i + |Written(pieces[0])|] == '\n'
    requires IsRest(s, pieces[1..], i + |Written(pieces[0])| + 1)
    ensures IsRest(s, pieces, i)
  {
    hide IsRest, At, Written;
    if pieces[0].LineNote? || pieces[0].BlockNote? {
      NoteIsRest(s, pieces, i);
    } else {
      OtherIsRest(s, pieces, i);
    }
  }

  lemma NoteIsRest(s: Source, pieces: seq<Piece>, i: nat)
    requires pieces != [] && (pieces[0].LineNote? || pieces[0].BlockNote?)
    requires i + |Written(pieces[0])| < |s.text| && s.text[i + |Written(pieces[0])|] == '\n'
    requires i > 0 ==> s.text[i - 1] == '\n'
    requires IsRest(s, pieces[1..], i + |Written(pieces[0])| + 1)
    ensures IsRest(s, pieces, i)
  {
    hide NotesOf, AllWritten, Written, TileOf, LeavesText, CutOf;
    var p, rest := pieces[0], pieces[1..];
    NotesOfCons(pieces, i);
    NoteOf(p, i);
    NoteGoes(pieces);
    hide WithoutNotes;
    var c := Comment(i, i + |Written(p)|, if p.LineNote? then Line else Block);
    NoteIsAlone(s, c);
    CutNote(s, c, NotesOf(rest, i + |Written(p)| + 1), AllWritten(WithoutNotes(rest)));
  }

  lemma OtherIsRest(s: Source, pieces: seq<Piece>, i: nat)
    requires pieces != [] && !pieces[0].LineNote? && !pieces[0].BlockNote?
    requires At(s.text, i, Written(pieces[0]) + ['\n']) && i + |Written(pieces[0])| < |s.text|
    requires IsRest(s, pieces[1..], i + |Written(pieces[0])| + 1)
    ensures IsRest(s, pieces, i)
  {
    hide NotesOf, AllWritten, Written, TileOf, LeavesText, WithoutNotes, At;
    var p, rest := pieces[0], pieces[1..];
    NotesOfCons(pieces, i);
    NoteOf(p, i);
    var later := NotesOf(rest, i + |Written(p)| + 1);
    assert [] + later == later;
    LineIsKept(s, i, Written(p), later, AllWritten(WithoutNotes(rest)));
    KeptIsWritten(pieces);
  }

  lemma NoteGoes(pieces: seq<Piece>)
    requires pieces != [] && (pieces[0].LineNote? || pieces[0].BlockNote?)
    ensures WithoutNotes(pieces) == WithoutNotes(pieces[1..])
  {
  }

  lemma NoteOf(p: Piece, i: nat)
    ensures CommentIn(TileOf(p, i))
         == if p.LineNote? || p.BlockNote? then [Comment(i, i + |Written(p)|, if p.LineNote? then Line else Block)] else []
  {
  }

  lemma KeptIsWritten(pieces: seq<Piece>)
    requires pieces != [] && !pieces[0].LineNote? && !pieces[0].BlockNote?
    ensures AllWritten(WithoutNotes(pieces)) == Written(pieces[0]) + ['\n'] + AllWritten(WithoutNotes(pieces[1..]))
  {
    hide Written;
    var rest := WithoutNotes(pieces[1..]);
    assert ([pieces[0]] + rest)[1..] == rest;
  }

  lemma LineIsKept(s: Source, i: nat, text: string, later: seq<Comment>, out: string)
    requires At(s.text, i, text + ['\n']) && LeavesText(s, later, i + |text| + 1, out)
    ensures LeavesText(s, later, i, text + ['\n'] + out)
  {
    var e := i + |text| + 1;
    assert s.text[i..e] == text + ['\n'];
    hide CutsOrdered, LeftToRight, CutsOf;
    LaterStart(s.text, i, e, CutsOf(s, later));
  }

  lemma CutNote(s: Source, c: Comment, later: seq<Comment>, out: string)
    requires c.start <= c.end < |s.text| && CutOf(s, c) == Cut(c.start, c.end + 1, "")
    requires LeavesText(s, later, c.end + 1, out)
    ensures LeavesText(s, [c] + later, c.start, out)
  {
    hide CutOf;
    assert ([c] + later)[1..] == later;
    CutsCons(s, [c] + later);
    hide CutsOf;
    var cuts := CutsOf(s, [c] + later);
    FirstOrdered(c.start, cuts, |s.text|);
    hide LeftToRight, CutsOrdered;
    FirstPiece(s.text, c.start, cuts);
    assert s.text[c.start..c.start] == "";
  }

  /** Stripping a source that was written line by line gives back what would have been written
      without the comments: names, literals and marks stay as they were, whatever is in them,
      and no empty line is left. */
  lemma StripUnwritesNotes(s: Source, p: Patterns, pieces: seq<Piece>)
    requires Sane(s.cls) && AllPieces(s.cls, pieces) && s.text == AllWritten(pieces)
    requires forall text :: !p.directive(text)
    ensures CutsOrdered(0, CutsOf(s, Gone(s, p, All)), |s.text|)
    ensures LeftToRight(s.text, 0, CutsOf(s, Gone(s, p, All))) == AllWritten(WithoutNotes(pieces))
  {
    assert s.text[0..] == s.text;
    WrittenIsRead(s, [], pieces, 0);
    AllGo(s, p);
    hide TilesFrom, TilesOf, Gone;
    assert CommentsIn(s) == NotesOf(pieces, 0);
    NotesAreCutOut(s, pieces, 0);
  }
}
