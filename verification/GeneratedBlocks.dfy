/** The marked blocks of scripts/lib/codegen_blocks.py. A document is a string
    whose characters stand for its bytes, so each result covers every byte string. */
module BlockMarkers {
  import opened Wrappers
  import opened Strings

  const OPENING := "<!--"
  const CLOSING := "-->"
  const TAG := "generated:"

  function End(): string {
    "<!-- generated:end -->"
  }

  function Begin(name: string): string {
    "<!-- generated:begin " + name + " -->"
  }

  predicate IsLetter(c: char) {
    'a' <= c <= 'z' || 'A' <= c <= 'Z'
  }

  predicate IsNameChar(c: char) {
    IsLetter(c) || '0' <= c <= '9' || c == '_' || c == '-'
  }

  predicate IsName(s: string) {
    s != [] && IsLetter(s[0]) && forall i :: 0 <= i < |s| ==> IsNameChar(s[i])
  }

  /** The whitespace of a regular expression over bytes. */
  predicate IsSpace(c: char) {
    c == ' ' || c == '\t' || c == '\n' || c == '\r' || c == '\U{0B}' || c == '\U{0C}'
  }

  /** The characters that the two patterns name, by their codes: white space is a space or one
      of the five control characters from tab to carriage return; a name is made of letters,
      digits, underscores and hyphens, and starts with a letter. */
  lemma ClassesAreExact(c: char)
    ensures IsSpace(c) <==> c as int == 32 || 9 <= c as int <= 13
    ensures IsLetter(c) <==> 65 <= c as int <= 90 || 97 <= c as int <= 122
    ensures IsNameChar(c) <==> IsLetter(c) || 48 <= c as int <= 57 || c as int == 95 || c as int == 45
  {
  }

  function SkipSpaces(doc: string, i: nat): (j: nat)
    requires i <= |doc|
    ensures i <= j <= |doc|
    decreases |doc| - i
  {
    if i < |doc| && IsSpace(doc[i]) then SkipSpaces(doc, i + 1) else i
  }

  /** The opening of a marker at `i`: the comment opener, spaces, the tag. The
      answer is the offset just past it. */
  function Opener(doc: string, i: nat): (r: Option<nat>)
    ensures r.Some? ==> i < r.value <= |doc|
  {
    if At(doc, i, OPENING) then
      var j := SkipSpaces(doc, i + |OPENING|);
      if At(doc, j, TAG) then Some(j + |TAG|) else None
    else None
  }

  /** A lazy match up to the closer, or up to the end of the document, which a
      regular expression's `$` also finds before a final line feed. */
  function Closer(doc: string, j: nat): (e: nat)
    requires j <= |doc|
    ensures j <= e <= |doc|
    decreases |doc| - j
  {
    if At(doc, j, CLOSING) then j + |CLOSING|
    else if j == |doc| || (j == |doc| - 1 && doc[j] == '\n') then j
    else Closer(doc, j + 1)
  }

  /** The first marker that starts at `pos` or later, as start and end. */
  function NextToken(doc: string, pos: nat): (r: Option<(nat, nat)>)
    requires pos <= |doc|
    ensures r.Some? ==> pos <= r.value.0 < r.value.1 <= |doc|
    decreases |doc| - pos
  {
    if pos == |doc| then None
    else
      match Opener(doc, pos)
      case Some(j) => Some((pos, Closer(doc, j)))
      case None => NextToken(doc, pos + 1)
  }

  /** The name a whole token declares, when it is a begin marker. */
  function BeginName(token: string): (r: Option<string>)
    ensures r.Some? ==> IsName(r.value) && token == Begin(r.value)
  {
    var head := "<!-- generated:begin ";
    if |head| + 4 < |token| && token[..|head|] == head && token[|token| - 4..] == " -->"
       && IsName(token[|head|..|token| - 4]) then
      var name := token[|head|..|token| - 4];
      assert token == token[..|head|] + name + token[|token| - 4..];
      Some(name)
    else None
  }

  /** No marker opens inside `text`. */
  ghost predicate Plain(text: string) {
    forall i :: 0 <= i < |text| ==> Opener(text, i).None?
  }

  lemma SkipSpacesStops(doc: string, i: nat, j: nat)
    requires i <= j < |doc|
    requires forall k :: i <= k < j ==> IsSpace(doc[k])
    requires !IsSpace(doc[j])
    ensures SkipSpaces(doc, i) == j
    decreases j - i
  {
  }

  lemma SkippedAreSpaces(doc: string, i: nat)
    requires i <= |doc|
    ensures forall k :: i <= k < SkipSpaces(doc, i) ==> IsSpace(doc[k])
    ensures SkipSpaces(doc, i) < |doc| ==> !IsSpace(doc[SkipSpaces(doc, i)])
    decreases |doc| - i
  {
  }

  /** What an opener is, without reference to how it is searched for. */
  ghost predicate OpensOver(doc: string, i: nat, e: nat) {
    exists j :: IsOpener(doc, i, j, e)
  }

  ghost predicate IsOpener(doc: string, i: nat, j: nat, e: nat) {
    && i + 4 <= j && e == j + |TAG| <= |doc|
    && doc[i] == '<' && doc[i + 1] == '!' && doc[i + 2] == '-' && doc[i + 3] == '-'
    && (forall k :: i + 4 <= k < j ==> IsSpace(doc[k]))
    && doc[j..e] == TAG
  }

  lemma OpenerIsExact(doc: string, i: nat, e: nat)
    ensures Opener(doc, i) == Some(e) <==> OpensOver(doc, i, e)
  {
    if Opener(doc, i) == Some(e) {
      var s := doc[i..i + 4];
      assert s[0] == '<' && s[1] == '!' && s[2] == '-' && s[3] == '-';
      SkippedAreSpaces(doc, i + 4);
      assert IsOpener(doc, i, SkipSpaces(doc, i + 4), e);
    }
    if OpensOver(doc, i, e) {
      var j: nat :| IsOpener(doc, i, j, e);
      assert doc[i..i + 4] == OPENING;
      assert doc[j] == doc[j..e][0] == 'g';
      SkipSpacesStops(doc, i + 4, j);
    }
  }

  /** An opener holds one `<`, its first character. */
  lemma OpenerHasOneBracket(doc: string, i: nat, e: nat, k: nat)
    requires Opener(doc, i) == Some(e) && i < k < e
    ensures doc[k] != '<'
  {
    OpenerIsExact(doc, i, e);
    var j: nat :| IsOpener(doc, i, j, e);
    if j <= k {
      assert doc[k] == doc[j..e][k - j];
    }
  }

  lemma IsOpenerMoves(a: string, t: string, b: string, i: nat, j: nat, e: nat)
    requires e <= |t|
    ensures IsOpener(t, i, j, e) <==> IsOpener(a + t + b, |a| + i, |a| + j, |a| + e)
  {
    var doc := a + t + b;
    assert forall k :: 0 <= k < |t| ==> t[k] == doc[|a| + k];
    if j <= e {
      assert doc[|a| + j..|a| + e] == t[j..e];
    }
    if IsOpener(doc, |a| + i, |a| + j, |a| + e) {
      forall k | i + 4 <= k < j ensures IsSpace(t[k]) {
        assert t[k] == doc[|a| + k];
      }
    }
  }

  /** An opener stays one when its text is placed in a larger document, and
      conversely as long as the opener lies inside that text. */
  lemma OpenerMoves(a: string, t: string, b: string, i: nat, e: nat)
    requires e <= |t|
    ensures Opener(t, i) == Some(e) <==> Opener(a + t + b, |a| + i) == Some(|a| + e)
  {
    hide Opener;
    var doc := a + t + b;
    OpenerIsExact(t, i, e);
    OpenerIsExact(doc, |a| + i, |a| + e);
    if OpensOver(t, i, e) {
      var j: nat :| IsOpener(t, i, j, e);
      IsOpenerMoves(a, t, b, i, j, e);
    }
    if OpensOver(doc, |a| + i, |a| + e) {
      var j: nat :| IsOpener(doc, |a| + i, j, |a| + e);
      IsOpenerMoves(a, t, b, i, j - |a|, e);
    }
  }

  /** Nothing opens inside plain text that is followed by a marker or by nothing. */
  lemma PlainStaysPlain(a: string, t: string, b: string, i: nat)
    requires Plain(t) && i < |t| && (b == [] || b[0] == '<')
    ensures Opener(a + t + b, |a| + i).None?
  {
    var doc := a + t + b;
    var r := Opener(doc, |a| + i);
    if r.Some? {
      var e := r.value;
      if e <= |a| + |t| {
        OpenerMoves(a, t, b, i, e - |a|);
      } else {
        assert doc[|a| + |t|] == '<';
        OpenerHasOneBracket(doc, |a| + i, e, |a| + |t|);
      }
    }
  }

  lemma {:induction false} SkipPlain(doc: string, pos: nat, p: nat)
    requires pos <= p <= |doc| && (p == |doc| || doc[p] == '<')
    requires forall i :: pos <= i < p ==> Opener(doc, i).None?
    ensures NextToken(doc, pos) == NextToken(doc, p)
    decreases p - pos
  {
    if pos < p {
      SkipPlain(doc, pos + 1, p);
    }
  }

  /** No marker opens in plain text that runs up to a marker or to the end. */
  lemma PlainSlice(doc: string, pos: nat, p: nat)
    requires pos <= p <= |doc| && (p == |doc| || doc[p] == '<') && Plain(doc[pos..p])
    ensures NextToken(doc, pos) == NextToken(doc, p)
  {
    var a, t, b := doc[..pos], doc[pos..p], doc[p..];
    assert doc == a + t + b;
    forall i | pos <= i < p ensures Opener(doc, i).None? {
      PlainStaysPlain(a, t, b, i - pos);
    }
    SkipPlain(doc, pos, p);
  }

  lemma ClosingEndsInBracket(doc: string, j: nat)
    ensures At(doc, j, CLOSING) ==> doc[j + 2] == '>'
  {
    if At(doc, j, CLOSING) {
      assert doc[j + 2] == doc[j..j + 3][2];
    }
  }

  /** The closer of a marker text is found at its end: it holds one `>`. */
  lemma {:induction false} CloserOfMarker(doc: string, j: nat, e: nat)
    requires j + 3 <= e <= |doc| && doc[e - 3..e] == CLOSING
    requires forall k :: j <= k < e - 1 ==> doc[k] != '>'
    ensures Closer(doc, j) == e
    decreases e - j
  {
    assert doc[e - 1] == doc[e - 3..e][2] == '>';
    if j + 3 < e {
      ClosingEndsInBracket(doc, j);
      CloserOfMarker(doc, j + 1, e);
    }
  }

  ghost predicate IsMarker(m: string) {
    m == End() || exists name :: IsName(name) && m == Begin(name)
  }

  lemma MarkerShape(m: string)
    requires IsMarker(m)
    ensures |m| >= 18 && m[5..15] == TAG && m[|m| - 3..] == CLOSING
    ensures m[0] == '<' && m[1] == '!' && m[2] == '-' && m[3] == '-' && m[4] == ' '
    ensures forall k :: 15 <= k < |m| - 1 ==> m[k] != '>'
  {
    if m != End() {
      var name :| IsName(name) && m == Begin(name);
      forall k | 15 <= k < |m| - 1 ensures m[k] != '>' {
        if 21 <= k < 21 + |name| {
          assert m[k] == name[k - 21];
          assert IsNameChar(name[k - 21]);
        }
      }
    }
  }

  lemma SliceOfSlice(s: string, a: nat, b: nat, i: nat, j: nat)
    requires a <= b <= |s| && i <= j <= b - a
    ensures s[a..b][i..j] == s[a + i..a + j]
  {
    forall k | 0 <= k < j - i ensures s[a..b][i..j][k] == s[a + i..a + j][k] {
      assert s[a..b][i + k] == s[a + i + k];
    }
  }

  lemma MarkerToken(doc: string, n: nat, e: nat)
    requires n <= e <= |doc| && IsMarker(doc[n..e])
    ensures n < e && doc[n] == '<' && NextToken(doc, n) == Some((n, e))
  {
    hide IsMarker, Opener, IsOpener, Closer;
    var m := doc[n..e];
    MarkerShape(m);
    MarkerOpens(doc, n, e);
    SliceOfSlice(doc, n, e, |m| - 3, |m|);
    forall k | n + 15 <= k < e - 1 ensures doc[k] != '>' {
      assert doc[k] == m[k - n];
    }
    CloserOfMarker(doc, n + 15, e);
  }

  lemma MarkerOpens(doc: string, n: nat, e: nat)
    requires n + 18 <= e <= |doc| && IsMarker(doc[n..e])
    ensures doc[n] == '<' && Opener(doc, n) == Some(n + 15)
  {
    hide IsMarker, Opener;
    var m := doc[n..e];
    MarkerShape(m);
    assert doc[n] == m[0] && doc[n + 1] == m[1] && doc[n + 2] == m[2] && doc[n + 3] == m[3] && doc[n + 4] == m[4];
    SliceOfSlice(doc, n, e, 5, 15);
    assert IsOpener(doc, n, n + 5, n + 15);
    OpenerIsExact(doc, n, n + 15);
  }

  /** The first token after plain text is the marker that ends the text. */
  lemma TokenAfterText(doc: string, pos: nat, p: nat, e: nat)
    requires pos <= p <= e <= |doc| && Plain(doc[pos..p]) && IsMarker(doc[p..e])
    ensures NextToken(doc, pos) == Some((p, e))
  {
    hide Plain, IsMarker, NextToken;
    MarkerToken(doc, p, e);
    PlainSlice(doc, pos, p);
  }

  lemma BeginNameOfBegin(name: string)
    requires IsName(name)
    ensures BeginName(Begin(name)) == Some(name)
  {
    var t := Begin(name);
    assert t[..21] == "<!-- generated:begin ";
    assert t[|t| - 4..] == " -->";
    assert t[21..|t| - 4] == name;
  }

  /** What precedes the first marker, or the whole rest, is plain. */
  lemma {:induction false} BeforeTokenIsPlain(doc: string, pos: nat, upto: nat)
    requires pos <= upto <= |doc|
    requires match NextToken(doc, pos) case Some(t) => upto == t.0 case None => upto == |doc|
    ensures Plain(doc[pos..upto])
  {
    hide NextToken;
    var t := doc[pos..upto];
    assert doc == doc[..pos] + t + doc[upto..];
    forall i | 0 <= i < |t| ensures Opener(t, i).None? {
      if e :| Opener(t, i) == Some(e) {
        OpenerMoves(doc[..pos], t, doc[upto..], i, e);
        NoEarlierOpener(doc, pos, pos + i);
      }
    }
  }

  lemma {:induction false} NoEarlierOpener(doc: string, pos: nat, i: nat)
    requires pos <= i < |doc|
    requires match NextToken(doc, pos) case Some(t) => i < t.0 case None => true
    ensures Opener(doc, i).None?
    decreases i - pos
  {
    if pos < i {
      NoEarlierOpener(doc, pos + 1, i);
    }
  }

  /** `load` refuses a fragment that holds a comment opener, so what it accepts is plain. */
  lemma AcceptedFragmentIsPlain(text: string)
    requires forall i :: 0 <= i < |text| ==> !At(text, i, OPENING)
    ensures Plain(text)
  {
  }
}

/** `spans`, `splice` and `check`, against the documents they read and print. */
module GeneratedBlocks {
  import opened Sequences
  import opened Wrappers
  import opened Strings
  import opened BlockMarkers

  datatype Result<+T> = Ok(value: T) | Err

  /** Where one block's body lies: from just past its begin marker to its end marker. */
  datatype Span = Span(name: string, start: nat, end: nat)

  datatype Block = Block(name: string, body: string, after: string)

  /** A document, as text and the blocks in it. */
  datatype Doc = Doc(before: string, blocks: seq<Block>)

  type Fragments = map<string, string>

  function PrintBlocks(bs: seq<Block>): string {
    if bs == [] then ""
    else Begin(bs[0].name) + bs[0].body + End() + bs[0].after + PrintBlocks(bs[1..])
  }

  function Print(d: Doc): string {
    d.before + PrintBlocks(d.blocks)
  }

  function Positions(pos: nat, bs: seq<Block>): seq<Span>
    decreases |bs|
  {
    if bs == [] then []
    else
      var start := pos + |Begin(bs[0].name)|;
      var end := start + |bs[0].body|;
      [Span(bs[0].name, start, end)] + Positions(end + |End()| + |bs[0].after|, bs[1..])
  }

  function BlockNames(bs: seq<Block>): set<string> {
    set b | b in bs :: b.name
  }

  function SpanNames(found: seq<Span>): set<string> {
    set s | s in found :: s.name
  }

  ghost predicate WellFormedBlocks(bs: seq<Block>) {
    && (forall b :: b in bs ==> IsName(b.name) && Plain(b.body) && Plain(b.after))
    && (forall i, j :: 0 <= i < j < |bs| ==> bs[i].name != bs[j].name)
  }

  /** A document whose only markers are those of one block for each expected name. */
  ghost predicate WellFormed(d: Doc, expected: set<string>) {
    Plain(d.before) && WellFormedBlocks(d.blocks) && BlockNames(d.blocks) == expected
  }

  // ---- spans ----

  /** The scan of `spans` from `pos` on, a block having been current or not. */
  function Parse(doc: string, pos: nat, current: Option<(string, nat)>, found: seq<Span>, expected: set<string>)
    : Result<seq<Span>>
    requires pos <= |doc|
    decreases |doc| - pos
  {
    match NextToken(doc, pos)
    case None => if current.Some? || SpanNames(found) != expected then Err else Ok(found)
    case Some((start, end)) =>
      var token := doc[start..end];
      match BeginName(token)
      case Some(name) =>
        if current.Some? || name in SpanNames(found) || name !in expected then Err
        else Parse(doc, end, Some((name, end)), found, expected)
      case None =>
        if token == End() && current.Some? then
          Parse(doc, end, None, found + [Span(current.value.0, current.value.1, start)], expected)
        else Err
  }

  /** The blocks' bodies in the order they stand, or an error. */
  method Spans(doc: string, expected: set<string>) returns (r: Result<seq<Span>>)
    ensures r == Parse(doc, 0, None, [], expected)
  {
    var found: seq<Span> := [];
    var current: Option<(string, nat)> := None;
    var pos := 0;
    var next := NextToken(doc, pos);
    while next.Some?
      invariant pos <= |doc| && next == NextToken(doc, pos)
      invariant Parse(doc, pos, current, found, expected) == Parse(doc, 0, None, [], expected)
      decreases |doc| - pos
    {
      var (start, end) := next.value;
      var token := doc[start..end];
      var begin := BeginName(token);
      if begin.Some? {
        var name := begin.value;
        if current.Some? || name in SpanNames(found) || name !in expected {
          return Err;
        }
        current := Some((name, end));
      } else if token == End() && current.Some? {
        found := found + [Span(current.value.0, current.value.1, start)];
        current := None;
      } else {
        return Err;
      }
      pos := end;
      next := NextToken(doc, pos);
    }
    if current.Some? || SpanNames(found) != expected {
      return Err;
    }
    return Ok(found);
  }

  lemma EndIsNoBegin()
    ensures BeginName(End()).None?
  {
  }

  lemma ParseLastText(doc: string, pos: nat, found: seq<Span>, expected: set<string>)
    requires pos <= |doc| && Plain(doc[pos..|doc|])
    ensures Parse(doc, pos, None, found, expected) == if SpanNames(found) != expected then Err else Ok(found)
  {
    hide Plain, SpanNames;
    PlainSlice(doc, pos, |doc|);
  }

  lemma ParseBegin(doc: string, pos: nat, p: nat, e: nat, name: string, found: seq<Span>, expected: set<string>)
    requires pos <= p <= e <= |doc| && Plain(doc[pos..p]) && doc[p..e] == Begin(name)
    requires IsName(name) && name !in SpanNames(found) && name in expected
    ensures Parse(doc, pos, None, found, expected) == Parse(doc, e, Some((name, e)), found, expected)
  {
    hide Plain, NextToken, BeginName, IsName, Begin, End, SpanNames;
    assert IsMarker(Begin(name));
    TokenAfterText(doc, pos, p, e);
    BeginNameOfBegin(name);
  }

  lemma ParseEnd(doc: string, pos: nat, p: nat, e: nat, name: string, start: nat, found: seq<Span>, expected: set<string>)
    requires pos <= p <= e <= |doc| && Plain(doc[pos..p]) && doc[p..e] == End()
    ensures Parse(doc, pos, Some((name, start)), found, expected)
         == Parse(doc, e, None, found + [Span(name, start, p)], expected)
  {
    hide Plain, NextToken, BeginName, SpanNames, End;
    TokenAfterText(doc, pos, p, e);
    EndIsNoBegin();
  }

  lemma {:induction false} ParsePrinted(doc: string, pos: nat, text: string, bs: seq<Block>, found: seq<Span>,
                                        expected: set<string>)
    requires pos <= |doc| && doc[pos..] == text + PrintBlocks(bs)
    requires Plain(text) && WellFormedBlocks(bs)
    requires SpanNames(found) !! BlockNames(bs) && BlockNames(bs) <= expected
    ensures Parse(doc, pos, None, found, expected)
         == (if SpanNames(found) + BlockNames(bs) == expected then Ok(found + Positions(pos + |text|, bs)) else Err)
    decreases |bs|
  {
    hide Plain, IsName, Parse, Begin, End;
    if bs == [] {
      assert doc[pos..|doc|] == text;
      ParseLastText(doc, pos, found, expected);
      assert found + Positions(pos + |text|, bs) == found;
    } else {
      var b := bs[0];
      NamesCons(bs);
      var rest := b.after + PrintBlocks(bs[1..]);
      var p0 := pos + |text|;
      var p1 := p0 + |Begin(b.name)|;
      var p2 := p1 + |b.body|;
      var p3 := p2 + |End()|;
      FirstSlice(doc, pos, text, PrintBlocks(bs));
      PrintedSlices(doc, p0, bs, Begin(b.name), p1, p2, p3);
      ParseBegin(doc, pos, p0, p1, b.name, found, expected);
      ParseEnd(doc, p1, p2, p3, b.name, p1, found, expected);
      var found' := found + [Span(b.name, p1, p2)];
      SpanNamesAppend(found, Span(b.name, p1, p2));
      ParsePrinted(doc, p3, b.after, bs[1..], found', expected);
      assert found' + Positions(p3 + |b.after|, bs[1..]) == found + Positions(p0, bs);
    }
  }

  lemma SpanNamesAppend(found: seq<Span>, s: Span)
    ensures SpanNames(found + [s]) == SpanNames(found) + {s.name}
  {
    assert (found + [s])[|found|] == s;
    forall x | x in found ensures x in found + [s] {
      var i :| 0 <= i < |found| && found[i] == x;
      assert (found + [s])[i] == x;
    }
  }

  lemma FirstSlice(doc: string, pos: nat, x: string, y: string)
    requires pos <= |doc| && doc[pos..] == x + y
    ensures pos + |x| <= |doc| && doc[pos..pos + |x|] == x && doc[pos + |x|..] == y
  {
    assert doc[pos..pos + |x|] == doc[pos..][..|x|];
    assert doc[pos + |x|..] == doc[pos..][|x|..];
  }

  /** Where the parts of the first block stand, `m` being its begin marker. */
  lemma PrintedSlices(doc: string, p0: nat, bs: seq<Block>, m: string, p1: nat, p2: nat, p3: nat)
    requires p0 <= |doc| && bs != [] && doc[p0..] == PrintBlocks(bs) && m == Begin(bs[0].name)
    requires p1 == p0 + |m| && p2 == p1 + |bs[0].body| && p3 == p2 + |End()|
    ensures p3 <= |doc| && doc[p0..p1] == m && doc[p1..p2] == bs[0].body && doc[p2..p3] == End()
    ensures doc[p3..] == bs[0].after + PrintBlocks(bs[1..])
  {
    hide Begin, End;
    var rest := bs[0].after + PrintBlocks(bs[1..]);
    assert PrintBlocks(bs) == m + (bs[0].body + (End() + rest));
    FirstSlice(doc, p0, m, bs[0].body + (End() + rest));
    FirstSlice(doc, p1, bs[0].body, End() + rest);
    FirstSlice(doc, p2, End(), rest);
  }

  lemma NamesCons(bs: seq<Block>)
    requires bs != []
    ensures BlockNames(bs) == {bs[0].name} + BlockNames(bs[1..])
    ensures WellFormedBlocks(bs) ==> WellFormedBlocks(bs[1..]) && bs[0].name !in BlockNames(bs[1..])
  {
    forall n | n in BlockNames(bs) ensures n == bs[0].name || n in BlockNames(bs[1..]) {
      var b :| b in bs && b.name == n;
      if b != bs[0] {
        assert b in bs[1..];
      }
    }
    forall b | b in bs[1..] ensures exists i :: 1 <= i < |bs| && bs[i] == b {
      var i :| 0 <= i < |bs[1..]| && bs[1..][i] == b;
      assert bs[i + 1] == b;
    }
  }

  lemma EmptyBlocks()
    ensures PrintBlocks([]) == "" && WellFormedBlocks([]) && BlockNames([]) == {}
  {
  }

  lemma ConsWellFormed(b: Block, bs: seq<Block>)
    requires IsName(b.name) && Plain(b.body) && Plain(b.after)
    requires WellFormedBlocks(bs) && b.name !in BlockNames(bs)
    ensures WellFormedBlocks([b] + bs) && BlockNames([b] + bs) == {b.name} + BlockNames(bs)
    ensures PrintBlocks([b] + bs) == Begin(b.name) + b.body + End() + b.after + PrintBlocks(bs)
  {
    hide IsName, Plain;
    assert ([b] + bs)[1..] == bs;
    forall c | c in bs ensures c.name in BlockNames(bs) {
    }
    NamesCons([b] + bs);
  }

  /** A printed document is read back as exactly its blocks. */
  lemma SpansOfPrinted(d: Doc, expected: set<string>)
    requires WellFormed(d, expected)
    ensures Parse(Print(d), 0, None, [], expected) == Ok(Positions(|d.before|, d.blocks))
  {
    hide Plain, WellFormedBlocks, PrintBlocks, Parse, Positions;
    assert Print(d)[0..] == d.before + PrintBlocks(d.blocks);
    ParsePrinted(Print(d), 0, d.before, d.blocks, [], expected);
    assert [] + Positions(|d.before|, d.blocks) == Positions(|d.before|, d.blocks);
  }

  /** A scan that succeeds has read text, then well-formed blocks, to the end. */
  lemma {:induction false} Unparse(doc: string, pos: nat, found: seq<Span>, expected: set<string>)
    returns (text: string, bs: seq<Block>)
    requires pos <= |doc| && SpanNames(found) <= expected
    requires Parse(doc, pos, None, found, expected).Ok?
    ensures doc[pos..] == text + PrintBlocks(bs)
    ensures Plain(text) && WellFormedBlocks(bs)
    ensures SpanNames(found) !! BlockNames(bs) && SpanNames(found) + BlockNames(bs) == expected
    decreases |doc| - pos
  {
    hide Plain, NextToken, BeginName, IsName, WellFormedBlocks, PrintBlocks, BlockNames, Begin, End;
    EmptyBlocks();
    match NextToken(doc, pos)
    case None =>
      BeforeTokenIsPlain(doc, pos, |doc|);
      text, bs := doc[pos..|doc|], [];
    case Some((start, end)) =>
      BeforeTokenIsPlain(doc, pos, start);
      text := doc[pos..start];
      var name := BeginName(doc[start..end]).value;
      var (start', end') := NextToken(doc, end).value;
      BeforeTokenIsPlain(doc, end, start');
      EndIsNoBegin();
      var found' := found + [Span(name, end, start')];
      assert SpanNames(found') == SpanNames(found) + {name};
      var after, rest := Unparse(doc, end', found', expected);
      var b := Block(name, doc[end..start'], after);
      bs := [b] + rest;
      ConsWellFormed(b, rest);
      assert doc[pos..] == text + doc[start..end] + doc[end..start'] + doc[start'..end'] + doc[end'..];
  }

  /** `spans` accepts exactly the documents made of text and one block per expected
      name, with no other marker anywhere. */
  lemma SpansAcceptsExactlyWellFormed(doc: string, expected: set<string>)
    ensures Parse(doc, 0, None, [], expected).Ok? <==> exists d :: WellFormed(d, expected) && Print(d) == doc
  {
    if Parse(doc, 0, None, [], expected).Ok? {
      var text, bs := Unparse(doc, 0, [], expected);
      assert doc[0..] == doc;
      assert WellFormed(Doc(text, bs), expected) && Print(Doc(text, bs)) == doc;
    }
    if d :| WellFormed(d, expected) && Print(d) == doc {
      SpansOfPrinted(d, expected);
    }
  }

  // ---- splice ----

  /** The spans lie in a document of length `n`, one after the other from `from` on. */
  predicate Ordered(from: nat, spans: seq<Span>, n: nat)
    decreases |spans|
  {
    if spans == [] then from <= n
    else from <= spans[0].start <= spans[0].end <= n && Ordered(spans[0].end, spans[1..], n)
  }

  /** Rewriting every body in one pass from the left. */
  function LeftToRight(doc: string, from: nat, spans: seq<Span>, f: Fragments): string
    requires Ordered(from, spans, |doc|) && SpanNames(spans) <= f.Keys
    decreases |spans|
  {
    if spans == [] then doc[from..]
    else
      SpanNamesCons(spans);
      doc[from..spans[0].start] + f[spans[0].name] + LeftToRight(doc, spans[0].end, spans[1..], f)
  }

  lemma SpanNamesCons(spans: seq<Span>)
    requires spans != []
    ensures spans[0].name in SpanNames(spans) && SpanNames(spans[1..]) <= SpanNames(spans)
  {
  }

  lemma {:induction false} PositionsAreOrdered(doc: string, pos: nat, from: nat, bs: seq<Block>)
    requires from <= pos <= |doc| && doc[pos..] == PrintBlocks(bs)
    ensures Ordered(from, Positions(pos, bs), |doc|)
    ensures SpanNames(Positions(pos, bs)) == BlockNames(bs)
    decreases |bs|
  {
    hide Begin, End;
    if bs != [] {
      var p1 := pos + |Begin(bs[0].name)|;
      var p2 := p1 + |bs[0].body|;
      var p3 := p2 + |End()|;
      PrintedSlices(doc, pos, bs, Begin(bs[0].name), p1, p2, p3);
      FirstSlice(doc, p3, bs[0].after, PrintBlocks(bs[1..]));
      PositionsAreOrdered(doc, p3 + |bs[0].after|, p2, bs[1..]);
      var rest := Positions(p3 + |bs[0].after|, bs[1..]);
      assert Positions(pos, bs) == [Span(bs[0].name, p1, p2)] + rest;
      assert ([Span(bs[0].name, p1, p2)] + rest)[1..] == rest;
      NamesCons(bs);
    }
  }

  lemma ParsedIsOrdered(doc: string, expected: set<string>)
    requires Parse(doc, 0, None, [], expected).Ok?
    ensures
      var spans := Parse(doc, 0, None, [], expected).value;
      Ordered(0, spans, |doc|) && SpanNames(spans) == expected
  {
    hide Parse, Plain;
    SpansAcceptsExactlyWellFormed(doc, expected);
    var d :| WellFormed(d, expected) && Print(d) == doc;
    SpansOfPrinted(d, expected);
    FirstSlice(doc, 0, d.before, PrintBlocks(d.blocks));
    PositionsAreOrdered(doc, |d.before|, 0, d.blocks);
  }

  function Spliced(doc: string, f: Fragments): Result<string> {
    var r := Parse(doc, 0, None, [], f.Keys);
    if r.Err? then Err
    else
      ParsedIsOrdered(doc, f.Keys);
      Ok(LeftToRight(doc, 0, r.value, f))
  }

  /** `splice`: the bodies are rewritten from the last to the first, so that the
      offsets of those still to come stay true. */
  method Splice(doc: string, f: Fragments) returns (r: Result<string>)
    ensures r == Spliced(doc, f)
  {
    hide Parse, LeftToRight, Ordered, SpanNames, Resume;
    var spans := Spans(doc, f.Keys);
    if spans.Err? {
      return Err;
    }
    var found := spans.value;
    ParsedIsOrdered(doc, f.Keys);
    var result := doc;
    var i := |found|;
    NothingSpliced(doc, found, f);
    while i > 0
      invariant 0 <= i <= |found|
      invariant Resume(found, i) <= |doc| && Ordered(Resume(found, i), found[i..], |doc|)
      invariant SpanNames(found[i..]) <= f.Keys
      invariant result == doc[..Resume(found, i)] + LeftToRight(doc, Resume(found, i), found[i..], f)
    {
      i := i - 1;
      RestIsOrdered(doc, found, f, i);
      SpliceStep(doc, found, f, i, result);
      var s := found[i];
      result := result[..s.start] + f[s.name] + result[s.end..];
    }
    AllSpliced(doc, found, f, result);
    return Ok(result);
  }

  /** Where the part of the document to the right of the first `i` bodies starts. */
  function Resume(found: seq<Span>, i: nat): nat
    requires i <= |found|
  {
    if i == 0 then 0 else found[i - 1].end
  }

  lemma {:induction false} OrderedDrop(from: nat, spans: seq<Span>, n: nat, i: nat)
    requires Ordered(from, spans, n) && i <= |spans|
    ensures if i == 0 then from <= n else spans[i - 1].end <= n && Ordered(spans[i - 1].end, spans[i..], n)
    decreases i
  {
    if i > 0 {
      OrderedDrop(spans[0].end, spans[1..], n, i - 1);
      assert spans[1..][i - 1..] == spans[i..];
    }
  }

  lemma RestIsOrdered(doc: string, found: seq<Span>, f: Fragments, i: nat)
    requires Ordered(0, found, |doc|) && SpanNames(found) <= f.Keys && i <= |found|
    ensures Resume(found, i) <= |doc| && Ordered(Resume(found, i), found[i..], |doc|)
    ensures SpanNames(found[i..]) <= f.Keys
    ensures i < |found| ==> found[i].name in f && Resume(found, i) <= found[i].start <= found[i].end <= |doc|
  {
    OrderedDrop(0, found, |doc|, i);
    assert found[0..] == found;
    forall s | s in found[i..] ensures s in found {
    }
    if i < |found| {
      assert found[i..][0] == found[i];
      assert found[i].name in SpanNames(found);
    }
  }

  lemma LeftToRightNil(doc: string, at: nat, f: Fragments)
    requires at <= |doc|
    ensures Ordered(at, [], |doc|) && SpanNames([]) <= f.Keys
    ensures doc == doc[..at] + LeftToRight(doc, at, [], f)
  {
  }

  lemma NothingSpliced(doc: string, found: seq<Span>, f: Fragments)
    requires Ordered(0, found, |doc|) && SpanNames(found) <= f.Keys
    ensures
      var (at, rest) := (Resume(found, |found|), found[|found|..]);
      && at <= |doc| && Ordered(at, rest, |doc|) && SpanNames(rest) <= f.Keys
      && doc == doc[..at] + LeftToRight(doc, at, rest, f)
  {
    hide LeftToRight, Ordered, Resume, SpanNames;
    RestIsOrdered(doc, found, f, |found|);
    LeftToRightNil(doc, Resume(found, |found|), f);
    assert found[|found|..] == [];
  }

  lemma AllSpliced(doc: string, found: seq<Span>, f: Fragments, result: string)
    requires Ordered(0, found, |doc|) && SpanNames(found) <= f.Keys
    requires Ordered(Resume(found, 0), found[0..], |doc|) && SpanNames(found[0..]) <= f.Keys
    requires result == doc[..Resume(found, 0)] + LeftToRight(doc, Resume(found, 0), found[0..], f)
    ensures result == LeftToRight(doc, 0, found, f)
  {
    hide LeftToRight, Ordered, SpanNames;
    assert found[0..] == found && doc[..0] == "";
  }

  /** Rewriting one more body from the right extends the part already rewritten. */
  lemma SpliceStep(doc: string, found: seq<Span>, f: Fragments, i: nat, result: string)
    requires Ordered(0, found, |doc|) && SpanNames(found) <= f.Keys && i < |found|
    requires Ordered(Resume(found, i + 1), found[i + 1..], |doc|) && SpanNames(found[i + 1..]) <= f.Keys
    requires found[i].start <= found[i].end <= |doc| && found[i].name in f
    requires result == doc[..Resume(found, i + 1)] + LeftToRight(doc, Resume(found, i + 1), found[i + 1..], f)
    ensures Resume(found, i) <= |doc| && Ordered(Resume(found, i), found[i..], |doc|)
    ensures SpanNames(found[i..]) <= f.Keys && found[i].end <= |result|
    ensures result[..found[i].start] + f[found[i].name] + result[found[i].end..]
         == doc[..Resume(found, i)] + LeftToRight(doc, Resume(found, i), found[i..], f)
  {
    RestIsOrdered(doc, found, f, i);
    var s, at, rest := found[i], Resume(found, i), found[i + 1..];
    assert found[i..][0] == s && found[i..][1..] == rest;
    var tail := LeftToRight(doc, s.end, rest, f);
    assert LeftToRight(doc, at, found[i..], f) == doc[at..s.start] + f[s.name] + tail;
    hide LeftToRight;
    assert result[..s.start] == doc[..s.start] && result[s.end..] == tail;
    assert doc[..s.start] == doc[..at] + doc[at..s.start];
    Reassociate(doc[..at], doc[at..s.start], f[s.name], tail);
  }

  function RefilledBlocks(bs: seq<Block>, f: Fragments): (r: seq<Block>)
    requires BlockNames(bs) <= f.Keys
    ensures |r| == |bs|
    ensures forall i :: 0 <= i < |bs| ==> bs[i].name in f && r[i] == Block(bs[i].name, f[bs[i].name], bs[i].after)
  {
    if bs == [] then []
    else
      NamesCons(bs);
      [Block(bs[0].name, f[bs[0].name], bs[0].after)] + RefilledBlocks(bs[1..], f)
  }

  /** The same document with each body replaced, and nothing else touched. */
  function Refilled(d: Doc, f: Fragments): Doc
    requires BlockNames(d.blocks) <= f.Keys
  {
    Doc(d.before, RefilledBlocks(d.blocks, f))
  }

  lemma {:induction false} LeftToRightRefills(doc: string, from: nat, pos: nat, bs: seq<Block>, f: Fragments)
    requires from <= pos <= |doc| && doc[pos..] == PrintBlocks(bs) && BlockNames(bs) <= f.Keys
    ensures Ordered(from, Positions(pos, bs), |doc|) && SpanNames(Positions(pos, bs)) <= f.Keys
    ensures LeftToRight(doc, from, Positions(pos, bs), f) == doc[from..pos] + PrintBlocks(RefilledBlocks(bs, f))
    decreases |bs|
  {
    hide Begin, End, LeftToRight, PrintBlocks, RefilledBlocks, Positions, Ordered, SpanNames, BlockNames;
    PositionsAreOrdered(doc, pos, from, bs);
    if bs == [] {
      NothingToRefill(doc, from, pos, f);
    } else {
      var b := bs[0];
      var m := Begin(b.name);
      var p1 := pos + |m|;
      var p2 := p1 + |b.body|;
      var p3 := p2 + |End()|;
      PrintedSlices(doc, pos, bs, m, p1, p2, p3);
      FirstSlice(doc, p3, b.after, PrintBlocks(bs[1..]));
      NamesCons(bs);
      LeftToRightRefills(doc, p2, p3 + |b.after|, bs[1..], f);
      var rest := Positions(p3 + |b.after|, bs[1..]);
      PositionsCons(pos, bs);
      LeftToRightCons(doc, from, Span(b.name, p1, p2), rest, f);
      var tail := PrintBlocks(RefilledBlocks(bs[1..], f));
      RefilledCons(bs, f);
      PrintBlocksCons(Block(b.name, f[b.name], b.after), RefilledBlocks(bs[1..], f));
      RefillText(doc, from, pos, p1, p2, p3, p3 + |b.after|, f[b.name], tail);
    }
  }

  lemma NothingToRefill(doc: string, from: nat, pos: nat, f: Fragments)
    requires from <= pos <= |doc| && doc[pos..] == PrintBlocks([])
    ensures Positions(pos, []) == [] && Ordered(from, [], |doc|) && SpanNames([]) <= f.Keys
    ensures BlockNames([]) <= f.Keys && RefilledBlocks([], f) == []
    ensures LeftToRight(doc, from, [], f) == doc[from..pos] + PrintBlocks([])
  {
    assert doc[pos..] == "";
    assert doc[from..] == doc[from..pos] + "";
  }

  lemma PositionsCons(pos: nat, bs: seq<Block>)
    requires bs != []
    ensures
      var start := pos + |Begin(bs[0].name)|;
      var end := start + |bs[0].body|;
      Positions(pos, bs) == [Span(bs[0].name, start, end)] + Positions(end + |End()| + |bs[0].after|, bs[1..])
  {
    hide Begin, End;
  }

  lemma RefilledCons(bs: seq<Block>, f: Fragments)
    requires bs != [] && BlockNames(bs) <= f.Keys
    ensures bs[0].name in f && BlockNames(bs[1..]) <= f.Keys
    ensures RefilledBlocks(bs, f) == [Block(bs[0].name, f[bs[0].name], bs[0].after)] + RefilledBlocks(bs[1..], f)
  {
    NamesCons(bs);
  }

  lemma RefillText(doc: string, from: nat, pos: nat, p1: nat, p2: nat, p3: nat, q: nat, x: string, tail: string)
    requires from <= pos <= p1 <= p2 <= p3 <= q <= |doc|
    ensures doc[from..p1] + x + (doc[p2..q] + tail)
         == doc[from..pos] + (doc[pos..p1] + x + doc[p2..p3] + doc[p3..q] + tail)
  {
    assert doc[from..p1] == doc[from..pos] + doc[pos..p1];
    assert doc[p2..q] == doc[p2..p3] + doc[p3..q];
    Reassociate(doc[from..pos], doc[pos..p1], x, doc[p2..q] + tail);
    assert doc[pos..p1] + x + (doc[p2..q] + tail) == doc[pos..p1] + x + doc[p2..p3] + doc[p3..q] + tail;
  }

  lemma LeftToRightCons(doc: string, from: nat, s: Span, rest: seq<Span>, f: Fragments)
    requires Ordered(from, [s] + rest, |doc|) && SpanNames([s] + rest) <= f.Keys
    ensures Ordered(s.end, rest, |doc|) && SpanNames(rest) <= f.Keys && s.name in f
    ensures LeftToRight(doc, from, [s] + rest, f) == doc[from..s.start] + f[s.name] + LeftToRight(doc, s.end, rest, f)
  {
    SpanNamesCons([s] + rest);
    assert ([s] + rest)[1..] == rest;
  }

  lemma PrintBlocksCons(b: Block, bs: seq<Block>)
    ensures PrintBlocks([b] + bs) == Begin(b.name) + b.body + End() + b.after + PrintBlocks(bs)
  {
    assert ([b] + bs)[1..] == bs;
  }

  /** `splice` on a printed document prints it with the bodies replaced. */
  lemma SpliceRefills(d: Doc, f: Fragments)
    requires WellFormed(d, f.Keys)
    ensures Spliced(Print(d), f) == Ok(Print(Refilled(d, f)))
  {
    hide Parse, Plain, LeftToRight;
    var doc := Print(d);
    SpansOfPrinted(d, f.Keys);
    FirstSlice(doc, 0, d.before, PrintBlocks(d.blocks));
    LeftToRightRefills(doc, 0, |d.before|, d.blocks, f);
  }

  /** `splice` fails on every other document. */
  lemma SpliceFailsOtherwise(doc: string, f: Fragments)
    ensures Spliced(doc, f).Err? <==> !exists d :: WellFormed(d, f.Keys) && Print(d) == doc
  {
    SpansAcceptsExactlyWellFormed(doc, f.Keys);
  }

  // ---- check ----

  ghost predicate Checked(doc: string, f: Fragments) {
    var r := Parse(doc, 0, None, [], f.Keys);
    && r.Ok?
    && (ParsedIsOrdered(doc, f.Keys); RangesAreIn(doc, r.value, f);
        forall s :: s in r.value ==> doc[s.start..s.end] == f[s.name])
  }

  lemma RangesAreIn(doc: string, found: seq<Span>, f: Fragments)
    requires Ordered(0, found, |doc|) && SpanNames(found) <= f.Keys
    ensures forall s :: s in found ==> s.start <= s.end <= |doc| && s.name in f
  {
    forall s | s in found ensures s.start <= s.end <= |doc| && s.name in f {
      var i :| 0 <= i < |found| && found[i] == s;
      RestIsOrdered(doc, found, f, i);
    }
  }

  method Check(doc: string, f: Fragments) returns (ok: bool)
    ensures ok <==> Checked(doc, f)
  {
    hide Parse, Ordered, SpanNames;
    var spans := Spans(doc, f.Keys);
    if spans.Err? {
      return false;
    }
    var found := spans.value;
    ParsedIsOrdered(doc, f.Keys);
    RangesAreIn(doc, found, f);
    for i := 0 to |found|
      invariant forall k :: 0 <= k < i ==> doc[found[k].start..found[k].end] == f[found[k].name]
    {
      var s := found[i];
      if doc[s.start..s.end] != f[s.name] {
        return false;
      }
    }
    return true;
  }

  // ---- What the three promise together ----

  lemma RefilledIsWellFormed(d: Doc, f: Fragments)
    requires WellFormed(d, f.Keys) && forall n :: n in f ==> Plain(f[n])
    ensures WellFormed(Refilled(d, f), f.Keys)
  {
    hide Plain, IsName, BlockNames, WellFormedBlocks;
    RefilledNames(d.blocks, f);
    RefilledBlocksAreWellFormed(d.blocks, f);
  }

  lemma RefilledBlocksAreWellFormed(bs: seq<Block>, f: Fragments)
    requires WellFormedBlocks(bs) && BlockNames(bs) <= f.Keys && forall n :: n in f ==> Plain(f[n])
    ensures WellFormedBlocks(RefilledBlocks(bs, f))
  {
    hide Plain, IsName, BlockNames, RefilledBlocks;
    var r := RefilledBlocks(bs, f);
    forall b | b in r ensures IsName(b.name) && Plain(b.body) && Plain(b.after) {
      var i :| 0 <= i < |r| && r[i] == b;
      assert bs[i] in bs && bs[i].name in f;
    }
    forall i, j | 0 <= i < j < |r| ensures r[i].name != r[j].name {
      assert bs[i].name != bs[j].name;
    }
  }

  lemma RefilledNames(bs: seq<Block>, f: Fragments)
    requires BlockNames(bs) <= f.Keys
    ensures BlockNames(RefilledBlocks(bs, f)) == BlockNames(bs)
  {
    var r := RefilledBlocks(bs, f);
    forall n | n in BlockNames(bs) ensures n in BlockNames(r) {
      var i :| 0 <= i < |bs| && bs[i].name == n;
      assert r[i] in r;
    }
    forall n | n in BlockNames(r) ensures n in BlockNames(bs) {
      var i :| 0 <= i < |r| && r[i].name == n;
      assert bs[i] in bs;
    }
  }

  /** The bodies `check` compares are those of the document it reads. */
  lemma CheckedMeans(d: Doc, f: Fragments)
    requires WellFormed(d, f.Keys)
    ensures Checked(Print(d), f) <==> forall i :: 0 <= i < |d.blocks| ==> d.blocks[i].body == f[d.blocks[i].name]
  {
    hide Parse, Plain, WellFormedBlocks, Ordered, SpanNames, Positions, PrintBlocks;
    var doc, spans := Print(d), Positions(|d.before|, d.blocks);
    SpansOfPrinted(d, f.Keys);
    ParsedIsOrdered(doc, f.Keys);
    RangesAreIn(doc, spans, f);
    FirstSlice(doc, 0, d.before, PrintBlocks(d.blocks));
    BodiesStandAt(doc, |d.before|, d.blocks);
    forall b | b in d.blocks ensures b.name in f {
      assert b.name in BlockNames(d.blocks);
    }
  }

  lemma {:induction false} BodiesStandAt(doc: string, pos: nat, bs: seq<Block>)
    requires pos <= |doc| && doc[pos..] == PrintBlocks(bs)
    ensures
      var spans := Positions(pos, bs);
      && |spans| == |bs|
      && forall i :: 0 <= i < |bs| ==>
           && spans[i].start <= spans[i].end <= |doc|
           && spans[i].name == bs[i].name && doc[spans[i].start..spans[i].end] == bs[i].body
    decreases |bs|
  {
    if bs != [] {
      hide Begin, End, PrintBlocks, Positions;
      var p1 := pos + |Begin(bs[0].name)|;
      var p2 := p1 + |bs[0].body|;
      var p3 := p2 + |End()|;
      PositionsCons(pos, bs);
      PrintedSlices(doc, pos, bs, Begin(bs[0].name), p1, p2, p3);
      FirstSlice(doc, p3, bs[0].after, PrintBlocks(bs[1..]));
      BodiesStandAt(doc, p3 + |bs[0].after|, bs[1..]);
      var spans, rest := Positions(pos, bs), Positions(p3 + |bs[0].after|, bs[1..]);
      assert spans == [Span(bs[0].name, p1, p2)] + rest;
      assert |spans| == |bs|;
      forall i | 0 <= i < |bs|
        ensures spans[i].start <= spans[i].end <= |doc|
        ensures spans[i].name == bs[i].name && doc[spans[i].start..spans[i].end] == bs[i].body
      {
        if i > 0 {
          assert spans[i] == rest[i - 1] && bs[i] == bs[1..][i - 1];
        }
      }
    }
  }

  /** What a successful `splice` returns, as a document. */
  lemma SplicedDocument(doc: string, f: Fragments) returns (d: Doc)
    requires Spliced(doc, f).Ok?
    ensures WellFormed(d, f.Keys) && Print(d) == doc && Spliced(doc, f) == Ok(Print(Refilled(d, f)))
  {
    hide Parse;
    SpansAcceptsExactlyWellFormed(doc, f.Keys);
    d :| WellFormed(d, f.Keys) && Print(d) == doc;
    SpliceRefills(d, f);
  }

  /** `check` accepts what `splice` wrote exactly when every fragment is plain. */
  lemma SpliceThenCheck(doc: string, f: Fragments)
    requires Spliced(doc, f).Ok?
    ensures Checked(Spliced(doc, f).value, f) <==> forall n :: n in f ==> Plain(f[n])
  {
    hide Parse, Plain, WellFormedBlocks, Spliced;
    var d := SplicedDocument(doc, f);
    var out := Spliced(doc, f).value;
    if forall n :: n in f ==> Plain(f[n]) {
      RefilledIsWellFormed(d, f);
      CheckedMeans(Refilled(d, f), f);
    }
    if Checked(out, f) {
      SpansAcceptsExactlyWellFormed(out, f.Keys);
      var e :| WellFormed(e, f.Keys) && Print(e) == out;
      CheckedMeans(e, f);
      forall n | n in f ensures Plain(f[n]) {
        PlainBody(e.blocks, n);
      }
    }
  }

  lemma PlainBody(bs: seq<Block>, n: string)
    requires WellFormedBlocks(bs) && n in BlockNames(bs)
    ensures exists i :: 0 <= i < |bs| && bs[i].name == n && Plain(bs[i].body)
  {
    var b :| b in bs && b.name == n;
    var i :| 0 <= i < |bs| && bs[i] == b;
  }

  /** A second `splice` over the same names forgets the first. With `g == f` this
      says that `splice` is idempotent. */
  lemma SpliceTwice(doc: string, f: Fragments, g: Fragments)
    requires f.Keys == g.Keys && forall n :: n in f ==> Plain(f[n])
    requires Spliced(doc, f).Ok?
    ensures Spliced(Spliced(doc, f).value, g) == Spliced(doc, g)
  {
    hide Parse, Plain, WellFormedBlocks, Spliced;
    var d := SplicedDocument(doc, f);
    RefilledIsWellFormed(d, f);
    SpliceRefills(Refilled(d, f), g);
    SpliceRefills(d, g);
    var once, twice := RefilledBlocks(d.blocks, f), RefilledBlocks(d.blocks, g);
    RefilledNames(d.blocks, f);
    assert RefilledBlocks(once, g) == twice;
  }

  /** The two modes of the tool agree: `check` accepts a document exactly when
      `splice` would leave it as it is. */
  lemma CheckAgreesWithSplice(doc: string, f: Fragments)
    requires forall n :: n in f ==> Plain(f[n])
    ensures Checked(doc, f) <==> Spliced(doc, f) == Ok(doc)
  {
    hide Parse, Plain, WellFormedBlocks, LeftToRight;
    if Checked(doc, f) {
      SpansAcceptsExactlyWellFormed(doc, f.Keys);
      var d :| WellFormed(d, f.Keys) && Print(d) == doc;
      CheckedMeans(d, f);
      SpliceRefills(d, f);
      assert RefilledBlocks(d.blocks, f) == d.blocks;
    }
    if Spliced(doc, f) == Ok(doc) {
      SpliceThenCheck(doc, f);
    }
  }
}
