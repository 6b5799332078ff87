/** Where the literals and comments of scripts/eval-comments/strip_comments.py end, said
    without the scanners: by the first character that no backslash escapes. */
module LexemeEnds {
  import opened Wrappers
  import opened Strings
  import opened Lexemes

  /** How many backslashes stand straight before `k`, none of them before `j`. */
  function Slashes(s: string, j: nat, k: nat): nat
    requires k <= |s|
  {
    if k > j && s[k - 1] == '\\' then 1 + Slashes(s, j, k - 1) else 0
  }

  /** No backslash of a literal whose body starts at `j` escapes what stands at `k`. */
  predicate IsFree(s: string, j: nat, k: nat)
    requires k <= |s|
  {
    Slashes(s, j, k) % 2 == 0
  }

  /** From a free place the next one is one on, or two on past a backslash. */
  lemma NextFree(s: string, j: nat, k: nat)
    requires j <= k < |s| && IsFree(s, j, k)
    ensures s[k] != '\\' ==> IsFree(s, j, k + 1)
    ensures s[k] == '\\' ==> !IsFree(s, j, k + 1) && (k + 2 <= |s| ==> IsFree(s, j, k + 2))
  {
  }

  // ---- Quoted texts ----

  predicate StopsQuote(s: string, j: nat, quote: char, stopAtNewline: bool, k: nat) {
    j <= k < |s| && IsFree(s, j, k) && (s[k] == quote || (stopAtNewline && s[k] == '\n'))
  }

  /** Nothing stops the text before `k`. */
  ghost predicate GoesOnTo(s: string, j: nat, quote: char, stopAtNewline: bool, k: nat) {
    forall i :: j <= i < k ==> !StopsQuote(s, j, quote, stopAtNewline, i)
  }

  ghost predicate IsFirstStop(s: string, j: nat, quote: char, stopAtNewline: bool, k: nat) {
    StopsQuote(s, j, quote, stopAtNewline, k) && GoesOnTo(s, j, quote, stopAtNewline, k)
  }

  /** A text whose body starts at `j` ends at `e`: just past the first quote that an even run of
      backslashes precedes, or at the first such line feed where that ends it, or at the end of
      the source when there is neither. */
  ghost predicate IsQuoteEnd(s: string, j: nat, quote: char, stopAtNewline: bool, e: nat) {
    || (exists k: nat :: IsFirstStop(s, j, quote, stopAtNewline, k) && e == if s[k] == quote then k + 1 else k)
    || (GoesOnTo(s, j, quote, stopAtNewline, |s|) && e == |s|)
  }

  lemma {:induction false} QuoteCloseFrom(s: string, j: nat, quote: char, stopAtNewline: bool, k: nat)
    requires quote != '\\' && j <= k && (k <= |s| ==> IsFree(s, j, k)) && GoesOnTo(s, j, quote, stopAtNewline, k)
    ensures IsQuoteEnd(s, j, quote, stopAtNewline, QuoteClose(s, k, quote, stopAtNewline))
    decreases |s| - k
  {
    if k < |s| {
      NextFree(s, j, k);
      hide IsFree;
      if s[k] == '\\' {
        QuoteCloseFrom(s, j, quote, stopAtNewline, k + 2);
      } else if s[k] == quote || (stopAtNewline && s[k] == '\n') {
        assert IsFirstStop(s, j, quote, stopAtNewline, k);
      } else {
        QuoteCloseFrom(s, j, quote, stopAtNewline, k + 1);
      }
    }
  }

  lemma QuoteCloseIsExact(s: string, j: nat, quote: char, stopAtNewline: bool)
    requires quote != '\\' && j <= |s|
    ensures IsQuoteEnd(s, j, quote, stopAtNewline, QuoteClose(s, j, quote, stopAtNewline))
  {
    QuoteCloseFrom(s, j, quote, stopAtNewline, j);
  }

  /** There is one such end only. */
  lemma QuoteEndIsUnique(s: string, j: nat, quote: char, stopAtNewline: bool, d: nat, e: nat)
    requires IsQuoteEnd(s, j, quote, stopAtNewline, d) && IsQuoteEnd(s, j, quote, stopAtNewline, e)
    ensures d == e
  {
    hide IsFree;
    if k: nat :| IsFirstStop(s, j, quote, stopAtNewline, k) && d == if s[k] == quote then k + 1 else k {
      var m: nat :| IsFirstStop(s, j, quote, stopAtNewline, m) && e == if s[m] == quote then m + 1 else m;
      assert k == m;
    }
  }

  // ---- Raw strings ----

  /** A quote with that many hashes after it. */
  predicate StopsRaw(s: string, hashes: nat, k: nat) {
    k + 1 + hashes <= |s| && s[k] == '"' && forall i :: k < i <= k + hashes ==> s[i] == '#'
  }

  ghost predicate IsRawEnd(s: string, j: nat, hashes: nat, e: nat) {
    || (exists k :: j <= k && StopsRaw(s, hashes, k) && (forall i :: j <= i < k ==> !StopsRaw(s, hashes, i))
                    && e == k + 1 + hashes)
    || ((forall i :: j <= i ==> !StopsRaw(s, hashes, i)) && e == |s|)
  }

  lemma {:induction false} HashesAreCounted(s: string, i: nat, n: nat)
    ensures CountHashes(s, i) >= n <==> n == 0 || (i + n <= |s| && forall k :: i <= k < i + n ==> s[k] == '#')
    decreases n
  {
    if n > 0 {
      HashesAreCounted(s, i + 1, n - 1);
    }
  }

  lemma ClosesRawIsExact(s: string, k: nat, hashes: nat)
    ensures ClosesRaw(s, k, hashes) <==> StopsRaw(s, hashes, k)
  {
    HashesAreCounted(s, k + 1, hashes);
  }

  lemma {:induction false} RawCloseIsExact(s: string, j: nat, hashes: nat)
    requires j <= |s|
    ensures IsRawEnd(s, j, hashes, RawClose(s, j, hashes))
    decreases |s| - j
  {
    hide ClosesRaw;
    if j < |s| {
      ClosesRawIsExact(s, j, hashes);
      if !StopsRaw(s, hashes, j) {
        RawCloseIsExact(s, j + 1, hashes);
      }
    }
  }

  // ---- Template chunks ----

  predicate StopsChunk(s: string, j: nat, k: nat) {
    j <= k < |s| && IsFree(s, j, k) && (s[k] == '`' || (s[k] == '$' && k + 1 < |s| && s[k + 1] == '{'))
  }

  /** A chunk read from `j` on ends at `e`, in that way: just past the first free backtick, or
      at the first free opener of a substitution, or at the end of the source. */
  ghost predicate IsChunkEnd(s: string, j: nat, e: nat, stop: Stop) {
    || (exists k: nat :: StopsChunk(s, j, k) && (forall i :: j <= i < k ==> !StopsChunk(s, j, i))
                    && if s[k] == '`' then e == k + 1 && stop == Closed else e == k && stop == Opens)
    || ((forall i :: j <= i ==> !StopsChunk(s, j, i)) && e == |s| && stop == Unclosed)
  }

  lemma OpenerStands(s: string, k: nat)
    ensures At(s, k, "${") <==> k + 1 < |s| && s[k] == '$' && s[k + 1] == '{'
  {
    if k + 2 <= |s| {
      assert s[k..k + 2] == [s[k], s[k + 1]];
    }
  }

  lemma {:induction false} ChunkEndFrom(s: string, j: nat, k: nat)
    requires j <= k && (k <= |s| ==> IsFree(s, j, k)) && forall i :: j <= i < k ==> !StopsChunk(s, j, i)
    ensures IsChunkEnd(s, j, ChunkEnd(s, k), ChunkStop(s, k))
    decreases |s| - k
  {
    hide At;
    OpenerStands(s, k);
    if k < |s| {
      NextFree(s, j, k);
      hide IsFree;
      if s[k] == '\\' {
        ChunkEndFrom(s, j, k + 2);
      } else if StopsChunk(s, j, k) {
      } else {
        ChunkEndFrom(s, j, k + 1);
      }
    }
  }

  lemma ChunkEndIsExact(s: string, j: nat)
    requires j <= |s|
    ensures IsChunkEnd(s, j, ChunkEnd(s, j), ChunkStop(s, j))
  {
    ChunkEndFrom(s, j, j);
  }

  // ---- Regular expressions ----

  /** Is `k` inside a character class: of the free brackets between `j` and `k`, is the last an
      opening one? */
  predicate InClass(s: string, j: nat, k: nat)
    requires k <= |s|
  {
    k > j
    && if IsFree(s, j, k - 1) && s[k - 1] == '[' then true
       else if IsFree(s, j, k - 1) && s[k - 1] == ']' then false
       else InClass(s, j, k - 1)
  }

  predicate StopsRegex(s: string, j: nat, k: nat) {
    j <= k < |s| && IsFree(s, j, k) && (s[k] == '\n' || (s[k] == '/' && !InClass(s, j, k)))
  }

  /** The letters from `k` on end at `e`. */
  ghost predicate LettersEnd(s: Source, k: nat, e: nat) {
    && k <= e <= |s.text| && (forall i :: k <= i < e ==> s.cls.alpha(s.text[i]))
    && (e < |s.text| ==> !s.cls.alpha(s.text[e]))
  }

  /** An expression whose body starts at `j` ends past its flags, which follow the first free
      slash outside a class; it is none when its line or the source ends before such a slash. */
  ghost predicate IsRegexEnd(s: Source, j: nat, r: Option<nat>) {
    || (exists k: nat :: StopsRegex(s.text, j, k) && (forall i :: j <= i < k ==> !StopsRegex(s.text, j, i))
                    && if s.text[k] == '/' then r.Some? && LettersEnd(s, k + 1, r.value) else r == None)
    || ((forall i :: j <= i ==> !StopsRegex(s.text, j, i)) && r == None)
  }

  lemma {:induction false} AlphaEndIsExact(s: Source, k: nat)
    requires k <= |s.text|
    ensures LettersEnd(s, k, AlphaEnd(s, k))
    decreases |s.text| - k
  {
    if k < |s.text| && s.cls.alpha(s.text[k]) {
      AlphaEndIsExact(s, k + 1);
    }
  }

  lemma NextClass(s: string, j: nat, k: nat)
    requires j <= k < |s| && IsFree(s, j, k)
    ensures s[k] != '\\' ==> InClass(s, j, k + 1) == (s[k] == '[' || (s[k] != ']' && InClass(s, j, k)))
    ensures s[k] == '\\' ==> InClass(s, j, k + 1) == InClass(s, j, k)
    ensures s[k] == '\\' && k + 2 <= |s| ==> InClass(s, j, k + 2) == InClass(s, j, k)
  {
    NextFree(s, j, k);
  }

  lemma {:induction false} RegexEndFrom(s: Source, j: nat, k: nat, inClass: bool)
    requires j <= k && (k <= |s.text| ==> IsFree(s.text, j, k) && inClass == InClass(s.text, j, k))
    requires forall i :: j <= i < k ==> !StopsRegex(s.text, j, i)
    ensures IsRegexEnd(s, j, RegexEnd(s, k, inClass))
    decreases |s.text| - k
  {
    if k < |s.text| {
      var c := s.text[k];
      NextFree(s.text, j, k);
      NextClass(s.text, j, k);
      hide IsFree, InClass;
      if c == '\n' {
        assert StopsRegex(s.text, j, k);
      } else if c == '\\' {
        RegexEndFrom(s, j, k + 2, inClass);
      } else if c == '[' {
        RegexEndFrom(s, j, k + 1, true);
      } else if c == ']' {
        RegexEndFrom(s, j, k + 1, false);
      } else if c == '/' && !inClass {
        AlphaEndIsExact(s, k + 1);
        assert StopsRegex(s.text, j, k);
      } else {
        RegexEndFrom(s, j, k + 1, inClass);
      }
    }
  }

  lemma RegexEndIsExact(s: Source, j: nat)
    requires j <= |s.text|
    ensures IsRegexEnd(s, j, RegexEnd(s, j, false))
  {
    RegexEndFrom(s, j, j, false);
  }

  // ---- Words and comments ----

  /** The word characters from `k` on end at `e`. */
  ghost predicate IsWordEnd(s: Source, k: nat, e: nat) {
    && k <= e <= |s.text|
    && (forall i :: k <= i < e ==> s.cls.alnum(s.text[i]) || s.text[i] == '_' || s.text[i] == '$')
    && (e < |s.text| ==> !s.cls.alnum(s.text[e]) && s.text[e] != '_' && s.text[e] != '$')
  }

  lemma {:induction false} WordEndIsExact(s: Source, k: nat)
    requires k <= |s.text|
    ensures IsWordEnd(s, k, WordEnd(s, k))
    decreases |s.text| - k
  {
    if k < |s.text| && (WordChar(s.cls, s.text[k]) || s.text[k] == '$') {
      WordEndIsExact(s, k + 1);
    }
  }

  predicate Closes(s: string, k: nat) { k + 1 < |s| && s[k] == '*' && s[k + 1] == '/' }

  predicate Nests(s: string, k: nat) { k + 1 < |s| && s[k] == '/' && s[k + 1] == '*' }

  lemma MarksStand(s: string, k: nat)
    ensures At(s, k, "*/") <==> Closes(s, k)
    ensures At(s, k, "/*") <==> Nests(s, k)
  {
    if k + 2 <= |s| {
      assert s[k..k + 2] == [s[k], s[k + 1]];
    }
  }

  /** A comment read from `j` on, where none nests, ends just past the first closer, or with the
      source. */
  ghost predicate IsFlatEnd(s: string, j: nat, e: nat) {
    || (exists k :: j <= k && Closes(s, k) && (forall i :: j <= i < k ==> !Closes(s, i)) && e == k + 2)
    || ((forall i :: j <= i ==> !Closes(s, i)) && e == |s|)
  }

  lemma {:induction false} FlatCommentIsExact(s: string, j: nat)
    requires j <= |s|
    ensures IsFlatEnd(s, j, BlockClose(s, false, 1, j))
    decreases |s| - j
  {
    hide At;
    MarksStand(s, j);
    if j < |s| {
      if Closes(s, j) {
        assert BlockClose(s, false, 0, j + 2) == j + 2;
      } else {
        FlatCommentIsExact(s, j + 1);
      }
    }
  }

  /** The inside of a comment where comments nest: text, and comments between. */
  datatype Inside = Text(text: string) | Nested(text: string, inner: Inside, after: Inside)

  function Printed(b: Inside): string {
    match b
    case Text(t) => t
    case Nested(t, inner, after) => t + "/*" + Printed(inner) + "*/" + Printed(after)
  }

  /** A text without a mark, neither in itself nor together with the mark that follows. */
  predicate HasNoMark(t: string, next: char) {
    forall k :: 0 <= k < |t| ==> !Closes(t + [next], k) && !Nests(t + [next], k)
  }

  predicate IsInside(b: Inside) {
    match b
    case Text(t) => HasNoMark(t, '*')
    case Nested(t, inner, after) => HasNoMark(t, '/') && IsInside(inner) && IsInside(after)
  }

  lemma {:induction false} TextIsSkipped(s: string, depth: nat, j: nat, t: string, next: char)
    requires depth > 0 && HasNoMark(t, next) && At(s, j, t + [next])
    ensures BlockClose(s, true, depth, j) == BlockClose(s, true, depth, j + |t|)
    decreases |t|
  {
    if t != "" {
      var u := t[1..];
      MarksStand(s, j);
      TailHasNoMark(t, next);
      StandsLater(s, j, [t[0]], u + [next]);
      assert t + [next] == [t[0]] + (u + [next]);
      StandsFirst(s, j, t + [next]);
      hide At, HasNoMark;
      TextIsSkipped(s, depth, j + 1, u, next);
    }
  }

  lemma TailHasNoMark(t: string, next: char)
    requires t != "" && HasNoMark(t, next)
    ensures HasNoMark(t[1..], next)
    ensures !Closes(t + [next], 0) && !Nests(t + [next], 0)
  {
    var u := t[1..];
    forall k | 0 <= k < |u| ensures !Closes(u + [next], k) && !Nests(u + [next], k) {
      assert !Closes(t + [next], k + 1) && !Nests(t + [next], k + 1);
      assert (t + [next])[1..] == u + [next];
    }
  }

  lemma StandsFirst(s: string, j: nat, t: string)
    requires At(s, j, t) && |t| > 1
    ensures j + 1 < |s| && s[j] == t[0] && s[j + 1] == t[1]
  {
    assert s[j..j + |t|][0] == s[j] && s[j..j + |t|][1] == s[j + 1];
  }

  lemma StandsLater(s: string, j: nat, a: string, b: string)
    requires At(s, j, a + b)
    ensures At(s, j, a) && At(s, j + |a|, b)
  {
    assert s[j..j + |a|] == s[j..j + |a + b|][..|a|];
    assert s[j + |a|..j + |a + b|] == s[j..j + |a + b|][|a|..];
  }

  /** Whatever nests in it, a comment ends at its own closer. */
  lemma {:induction false} NestedCommentIsExact(s: string, depth: nat, j: nat, b: Inside)
    requires IsInside(b) && At(s, j, Printed(b) + "*/")
    ensures BlockClose(s, true, depth + 1, j) == BlockClose(s, true, depth, j + |Printed(b)| + 2)
    decreases b
  {
    hide HasNoMark, BlockClose;
    match b
    case Text(t) =>
      TextCloses(s, depth, j, t);
    case Nested(t, inner, after) =>
      NestedShape(b);
      hide Printed;
      NestedStands(s, j, t, Printed(inner), Printed(after));
      NestedOpens(s, depth, j, t);
      hide At;
      NestedCommentIsExact(s, depth + 1, j + |t| + 2, inner);
      NestedCommentIsExact(s, depth, j + |t| + 2 + |Printed(inner)| + 2, after);
  }

  lemma NestedShape(b: Inside)
    requires b.Nested?
    ensures Printed(b) == b.text + "/*" + Printed(b.inner) + "*/" + Printed(b.after)
    ensures |Printed(b)| == |b.text| + 2 + |Printed(b.inner)| + 2 + |Printed(b.after)|
  {
  }

  lemma TextCloses(s: string, depth: nat, j: nat, t: string)
    requires HasNoMark(t, '*') && At(s, j, t + "*/")
    ensures BlockClose(s, true, depth + 1, j) == BlockClose(s, true, depth, j + |t| + 2)
  {
    assert t + "*/" == (t + ['*']) + "/";
    StandsLater(s, j, t, "*/");
    StandsLater(s, j, t + ['*'], "/");
    hide HasNoMark;
    TextIsSkipped(s, depth + 1, j, t, '*');
  }

  lemma NestedStands(s: string, j: nat, t: string, inner: string, after: string)
    requires At(s, j, t + "/*" + inner + "*/" + after + "*/")
    ensures At(s, j, t + "/*") && At(s, j + |t| + 2, inner + "*/") && At(s, j + |t| + 2 + |inner| + 2, after + "*/")
  {
    var head, mid, tail := t + "/*", inner + "*/", after + "*/";
    assert t + "/*" + inner + "*/" + after + "*/" == head + (mid + tail);
    hide At;
    StandsLater(s, j, head, mid + tail);
    StandsLater(s, j + |head|, mid, tail);
  }

  lemma NestedOpens(s: string, depth: nat, j: nat, t: string)
    requires HasNoMark(t, '/') && At(s, j, t + "/*")
    ensures j + |t| + 2 <= |s|
    ensures BlockClose(s, true, depth + 1, j) == BlockClose(s, true, depth + 2, j + |t| + 2)
  {
    hide HasNoMark;
    assert t + "/*" == (t + ['/']) + "*";
    StandsLater(s, j, t, "/*");
    StandsLater(s, j, t + ['/'], "*");
    TextIsSkipped(s, depth + 1, j, t, '/');
    MarksStand(s, j + |t|);
  }
}
