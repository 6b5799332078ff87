/** POSIX extended regular expressions, as far as the relaunch probe uses them: a
    reader for patterns, and what a read pattern matches. */
module ExtendedRegex {
  import opened Wrappers

  datatype Atom = Literal(c: char) | LineStart | LineEnd | Group(branches: Branches)

  datatype Branch = Done | Then(head: Atom, tail: Branch)

  datatype Branches = Only(first: Branch) | Or(first: Branch, others: Branches)

  /** The characters that open a construct this reader does not know. */
  predicate IsForeign(c: char) {
    c == '.' || c == '[' || c == '{' || c == '*' || c == '+' || c == '?'
  }

  predicate EndsBranch(s: string, i: nat) {
    i >= |s| || s[i] == '|' || s[i] == ')'
  }

  /** One atom at `i`, and the offset past it. A backslash makes the next character literal. */
  function ReadAtom(s: string, i: nat): (r: Option<(Atom, nat)>)
    requires !EndsBranch(s, i)
    ensures r.Some? ==> i < r.value.1 <= |s|
    decreases |s| - i, 0
  {
    var c := s[i];
    if c == '\\' then if i + 1 < |s| then Some((Literal(s[i + 1]), i + 2)) else None
    else if c == '^' then Some((LineStart, i + 1))
    else if c == '$' then Some((LineEnd, i + 1))
    else if c == '(' then
      var inner := ReadBranches(s, i + 1);
      if inner.Some? && inner.value.1 < |s| && s[inner.value.1] == ')' then Some((Group(inner.value.0), inner.value.1 + 1))
      else None
    else if IsForeign(c) then None
    else Some((Literal(c), i + 1))
  }

  function ReadBranch(s: string, i: nat): (r: Option<(Branch, nat)>)
    requires i <= |s|
    ensures r.Some? ==> i <= r.value.1 <= |s| && EndsBranch(s, r.value.1)
    decreases |s| - i, 1
  {
    if EndsBranch(s, i) then Some((Done, i))
    else
      var atom := ReadAtom(s, i);
      if atom.None? then None
      else
        var rest := ReadBranch(s, atom.value.1);
        if rest.None? then None else Some((Then(atom.value.0, rest.value.0), rest.value.1))
  }

  function ReadBranches(s: string, i: nat): (r: Option<(Branches, nat)>)
    requires i <= |s|
    ensures r.Some? ==> i <= r.value.1 <= |s|
    decreases |s| - i, 2
  {
    var first := ReadBranch(s, i);
    if first.None? then None
    else if first.value.1 < |s| && s[first.value.1] == '|' then
      var rest := ReadBranches(s, first.value.1 + 1);
      if rest.None? then None else Some((Or(first.value.0, rest.value.0), rest.value.1))
    else Some((Only(first.value.0), first.value.1))
  }

  /** A whole pattern, as its branches. */
  function Read(pattern: string): Option<Branches> {
    var r := ReadBranches(pattern, 0);
    if r.Some? && r.value.1 == |pattern| then Some(r.value.0) else None
  }

  ghost predicate AtomMatches(a: Atom, text: string, i: nat, j: nat)
    decreases a
  {
    i <= j <= |text| &&
    match a
    case Literal(c) => j == i + 1 && text[i] == c
    case LineStart => i == j == 0
    case LineEnd => i == j == |text|
    case Group(branches) => SomeBranchMatches(branches, text, i, j)
  }

  ghost predicate BranchMatches(b: Branch, text: string, i: nat, j: nat)
    decreases b
  {
    i <= j <= |text| &&
    match b
    case Done => i == j
    case Then(head, tail) => exists k: nat :: AtomMatches(head, text, i, k) && BranchMatches(tail, text, k, j)
  }

  ghost predicate SomeBranchMatches(bs: Branches, text: string, i: nat, j: nat)
    decreases bs
  {
    match bs
    case Only(b) => BranchMatches(b, text, i, j)
    case Or(b, others) => BranchMatches(b, text, i, j) || SomeBranchMatches(others, text, i, j)
  }

  /** A search finds the pattern somewhere in the text. */
  ghost predicate Finds(branches: Branches, text: string) {
    exists i: nat, j: nat :: SomeBranchMatches(branches, text, i, j)
  }

  /** Reading a match of one atom and what follows it apart, and putting it together. */
  lemma SplitMatch(head: Atom, tail: Branch, text: string, i: nat, j: nat) returns (k: nat)
    requires BranchMatches(Then(head, tail), text, i, j)
    ensures AtomMatches(head, text, i, k) && BranchMatches(tail, text, k, j)
  {
    k :| AtomMatches(head, text, i, k) && BranchMatches(tail, text, k, j);
  }

  lemma JoinMatch(head: Atom, tail: Branch, text: string, i: nat, k: nat, j: nat)
    requires AtomMatches(head, text, i, k) && BranchMatches(tail, text, k, j)
    ensures BranchMatches(Then(head, tail), text, i, j)
  {
  }

  // ---- Literal text ----

  /** Literal text, then `rest`. */
  function Text(s: string, rest: Branch): Branch {
    if s == "" then rest else Then(Literal(s[0]), Text(s[1..], rest))
  }

  lemma {:induction false} TextConcat(a: string, b: string, rest: Branch)
    ensures Text(a + b, rest) == Text(a, Text(b, rest))
    decreases |a|
  {
    if a == "" {
      assert a + b == b;
    } else {
      assert (a + b)[1..] == a[1..] + b;
      TextConcat(a[1..], b, rest);
    }
  }

  /** A branch that starts with literal text matches where the text stands and the
      rest matches after it. */
  lemma {:induction false} TextMatches(s: string, rest: Branch, text: string, i: nat, j: nat)
    ensures BranchMatches(Text(s, rest), text, i, j)
            <==> i + |s| <= |text| && text[i..i + |s|] == s && BranchMatches(rest, text, i + |s|, j)
    decreases |s|
  {
    if s != "" {
      var tail := Text(s[1..], rest);
      TextMatches(s[1..], rest, text, i + 1, j);
      if BranchMatches(Text(s, rest), text, i, j) {
        var k := SplitMatch(Literal(s[0]), tail, text, i, j);
        assert text[i..i + |s|] == [text[i]] + text[i + 1..i + 1 + |s[1..]|];
        assert s == [s[0]] + s[1..];
      }
      if i + |s| <= |text| && text[i..i + |s|] == s && BranchMatches(rest, text, i + |s|, j) {
        assert text[i] == text[i..i + |s|][0] == s[0];
        assert text[i + 1..i + 1 + |s[1..]|] == text[i..i + |s|][1..];
        assert AtomMatches(Literal(s[0]), text, i, i + 1);
      }
    }
  }
}

/** The probe's pattern, from crates/lucidos-app/src/desktop.rs. */
module RunningPattern {
  import opened Wrappers
  import opened ExtendedRegex

  predicate IsMeta(c: char) {
    c in {'\\', '.', '[', ']', '(', ')', '{', '}', '*', '+', '?', '^', '$', '|'}
  }

  function EreEscape(s: string): string {
    if s == "" then "" else (if IsMeta(s[0]) then ['\\', s[0]] else [s[0]]) + EreEscape(s[1..])
  }

  function Join(parts: seq<string>): string {
    if parts == [] then "" else if |parts| == 1 then parts[0] else parts[0] + "|" + Join(parts[1..])
  }

  function EscapeAll(parts: seq<string>): (r: seq<string>)
    ensures |r| == |parts| && forall k :: 0 <= k < |parts| ==> r[k] == EreEscape(parts[k])
  {
    if parts == [] then [] else [EreEscape(parts[0])] + EscapeAll(parts[1..])
  }

  function Tail(args: seq<string>): string {
    if args == [] then "" else " " + EreEscape(args[0]) + Tail(args[1..])
  }

  /** The pattern, when there is an executable to watch for. */
  function PatternFor(exes: seq<string>, args: seq<string>): (r: Option<string>)
    ensures r.None? <==> exes == []
  {
    var escaped := EscapeAll(exes);
    if exes == [] then None
    else if |exes| == 1 then Some("^" + escaped[0] + Tail(args) + "$")
    else Some("^(" + Join(escaped) + ")" + Tail(args) + "$")
  }

  /** The command line of `exe` run with `args`, as a process table shows it. */
  function ArgText(args: seq<string>): string {
    if args == [] then "" else " " + args[0] + ArgText(args[1..])
  }

  function CommandLine(exe: string, args: seq<string>): string {
    exe + ArgText(args)
  }

  /** Literal text before a branch already read. */
  function Prepend(s: string, r: Option<(Branch, nat)>): Option<(Branch, nat)> {
    if r.None? then None else Some((Text(s, r.value.0), r.value.1))
  }

  /** Escaped text is read back as that text, literally. */
  lemma {:induction false} EscapedReadsBack(doc: string, i: nat, s: string)
    requires i + |EreEscape(s)| <= |doc| && doc[i..i + |EreEscape(s)|] == EreEscape(s)
    ensures ReadBranch(doc, i) == Prepend(s, ReadBranch(doc, i + |EreEscape(s)|))
    decreases |s|
  {
    if s != "" {
      var e := EreEscape(s);
      var n := if IsMeta(s[0]) then 2 else 1;
      assert e[n..] == EreEscape(s[1..]);
      assert doc[i + n..i + |e|] == doc[i..i + |e|][n..];
      EscapedReadsBack(doc, i + n, s[1..]);
      assert doc[i] == doc[i..i + |e|][0];
      if IsMeta(s[0]) {
        assert doc[i + 1] == doc[i..i + |e|][1] == s[0];
      }
      assert ReadAtom(doc, i) == Some((Literal(s[0]), i + n));
    }
  }

  /** The tail of arguments is the escape of their text. */
  lemma {:induction false} TailIsEscaped(args: seq<string>)
    ensures Tail(args) == EreEscape(ArgText(args))
    decreases |args|
  {
    if args != [] {
      TailIsEscaped(args[1..]);
      EscapeConcat(" ", args[0]);
      EscapeConcat(" " + args[0], ArgText(args[1..]));
      assert EreEscape(" ") == " ";
    }
  }

  lemma {:induction false} EscapeConcat(a: string, b: string)
    ensures EreEscape(a + b) == EreEscape(a) + EreEscape(b)
    decreases |a|
  {
    if a == "" {
      assert a + b == b;
    } else {
      assert (a + b)[1..] == a[1..] + b;
      EscapeConcat(a[1..], b);
    }
  }

  /** One alternative per string, each literal. */
  function Alternatives(parts: seq<string>): Branches
    requires parts != []
  {
    if |parts| == 1 then Only(Text(parts[0], Done)) else Or(Text(parts[0], Done), Alternatives(parts[1..]))
  }

  /** A closing parenthesis or bar ends the branch that escaped text makes. */
  lemma EscapedBranch(doc: string, i: nat, s: string)
    requires i + |EreEscape(s)| <= |doc| && doc[i..i + |EreEscape(s)|] == EreEscape(s)
    requires EndsBranch(doc, i + |EreEscape(s)|)
    ensures ReadBranch(doc, i) == Some((Text(s, Done), i + |EreEscape(s)|))
  {
    EscapedReadsBack(doc, i, s);
  }

  lemma JoinSplits(parts: seq<string>)
    requires |parts| > 1
    ensures Join(EscapeAll(parts)) == EreEscape(parts[0]) + "|" + Join(EscapeAll(parts[1..]))
  {
    assert EscapeAll(parts)[1..] == EscapeAll(parts[1..]);
  }

  /** Joined escapes are read back as the alternatives. */
  lemma {:induction false} JoinReadsBack(doc: string, i: nat, parts: seq<string>)
    requires parts != []
    requires
      var n := |Join(EscapeAll(parts))|;
      i + n < |doc| && doc[i..i + n] == Join(EscapeAll(parts)) && doc[i + n] == ')'
    ensures ReadBranches(doc, i) == Some((Alternatives(parts), i + |Join(EscapeAll(parts))|))
    decreases |parts|
  {
    hide ReadBranch, Join, EscapeAll, EreEscape, Text;
    var e := EreEscape(parts[0]);
    if |parts| == 1 {
      JoinOne(parts);
      EscapedBranch(doc, i, parts[0]);
    } else {
      JoinSplits(parts);
      var rest := Join(EscapeAll(parts[1..]));
      var joined := e + "|" + rest;
      var at := i + |e|;
      SliceOfSlice(doc, i, joined, 0, |e|);
      SliceOfSlice(doc, i, joined, |e|, |e| + 1);
      SliceOfSlice(doc, i, joined, |e| + 1, |joined|);
      assert joined[..|e|] == e && joined[|e|..|e| + 1] == "|" && joined[|e| + 1..] == rest;
      assert doc[at] == doc[at..at + 1][0];
      EscapedBranch(doc, i, parts[0]);
      JoinReadsBack(doc, at + 1, parts[1..]);
    }
  }

  lemma JoinOne(parts: seq<string>)
    requires |parts| == 1
    ensures Join(EscapeAll(parts)) == EreEscape(parts[0])
  {
  }

  lemma SliceOfSlice(doc: string, i: nat, s: string, a: nat, b: nat)
    requires i + |s| <= |doc| && doc[i..i + |s|] == s && a <= b <= |s|
    ensures doc[i + a..i + b] == s[a..b]
  {
    forall k | a <= k < b ensures doc[i + k] == s[k] {
      assert doc[i..i + |s|][k] == doc[i + k];
    }
  }

  // ---- What the pattern means ----

  /** `^`, one of the executables, the arguments, `$`. */
  function Meaning(exes: seq<string>, args: seq<string>): Branches
    requires exes != []
  {
    var tail := Text(ArgText(args), Then(LineEnd, Done));
    Only(Then(LineStart, if |exes| == 1 then Text(exes[0], tail) else Then(Group(Alternatives(exes)), tail)))
  }

  lemma DollarReadsBack(doc: string)
    requires doc != "" && doc[|doc| - 1] == '$'
    ensures ReadBranch(doc, |doc| - 1) == Some((Then(LineEnd, Done), |doc|))
  {
    assert ReadAtom(doc, |doc| - 1) == Some((LineEnd, |doc|));
  }

  /** The end of the pattern: the escaped arguments, and the closing anchor. */
  lemma TailReadsBack(doc: string, i: nat, args: seq<string>)
    requires i <= |doc| && doc[i..] == Tail(args) + "$"
    ensures ReadBranch(doc, i) == Some((Text(ArgText(args), Then(LineEnd, Done)), |doc|))
  {
    hide ReadBranch, Text, Tail;
    TailIsEscaped(args);
    var e := EreEscape(ArgText(args));
    assert doc[i..] == e + "$";
    assert doc[i..i + |e|] == doc[i..][..|e|];
    assert doc[|doc| - 1] == doc[i..][|e|];
    DollarReadsBack(doc);
    EscapedReadsBack(doc, i, ArgText(args));
  }

  lemma PatternReadsBack(exes: seq<string>, args: seq<string>)
    requires exes != []
    ensures Read(PatternFor(exes, args).value) == Some(Meaning(exes, args))
  {
    hide Text, Tail, EreEscape, Join, EscapeAll, Alternatives;
    if |exes| == 1 {
      OnePatternReadsBack(exes, args);
    } else {
      GroupPatternReadsBack(exes, args);
    }
  }

  lemma OnePatternReadsBack(exes: seq<string>, args: seq<string>)
    requires |exes| == 1
    ensures Read(PatternFor(exes, args).value) == Some(Meaning(exes, args))
  {
    hide Text, Tail, EreEscape, Join, EscapeAll, Alternatives;
    var doc := PatternFor(exes, args).value;
    var tail := Tail(args) + "$";
    assert doc[0] == '^' && ReadAtom(doc, 0) == Some((LineStart, 1));
    EscapeFirst(exes);
    var e := EreEscape(exes[0]);
    assert doc == "^" + e + tail;
    assert doc[1..1 + |e|] == e && doc[1 + |e|..] == tail;
    TailReadsBack(doc, 1 + |e|, args);
    EscapedReadsBack(doc, 1, exes[0]);
    var end := Text(ArgText(args), Then(LineEnd, Done));
    assert ReadBranch(doc, 1) == Some((Text(exes[0], end), |doc|));
    assert ReadBranch(doc, 0) == Some((Then(LineStart, Text(exes[0], end)), |doc|));
  }

  lemma GroupPatternReadsBack(exes: seq<string>, args: seq<string>)
    requires |exes| > 1
    ensures Read(PatternFor(exes, args).value) == Some(Meaning(exes, args))
  {
    hide Text, Tail, EreEscape, Join, EscapeAll, Alternatives;
    var doc := PatternFor(exes, args).value;
    var tail := Tail(args) + "$";
    assert doc[0] == '^' && ReadAtom(doc, 0) == Some((LineStart, 1));
    var joined := Join(EscapeAll(exes));
    assert doc == "^(" + joined + ")" + tail;
    var at := 2 + |joined|;
    assert doc[1] == '(' && doc[2..at] == joined && doc[at] == ')' && doc[at + 1..] == tail;
    JoinReadsBack(doc, 2, exes);
    TailReadsBack(doc, at + 1, args);
    assert ReadAtom(doc, 1) == Some((Group(Alternatives(exes)), at + 1));
    var end := Text(ArgText(args), Then(LineEnd, Done));
    assert ReadBranch(doc, 1) == Some((Then(Group(Alternatives(exes)), end), |doc|));
    assert ReadBranch(doc, 0) == Some((Then(LineStart, Then(Group(Alternatives(exes)), end)), |doc|));
  }

  lemma EscapeFirst(exes: seq<string>)
    requires |exes| == 1
    ensures EscapeAll(exes)[0] == EreEscape(exes[0])
  {
  }

  lemma {:induction false} AlternativesMatch(parts: seq<string>, text: string, i: nat, j: nat)
    requires parts != []
    ensures SomeBranchMatches(Alternatives(parts), text, i, j)
            <==> exists k :: 0 <= k < |parts| && i + |parts[k]| == j <= |text| && text[i..j] == parts[k]
    decreases |parts|
  {
    hide Text, BranchMatches;
    TextMatches(parts[0], Done, text, i, j);
    DoneMatches(text, i + |parts[0]|, j);
    if |parts| > 1 {
      AlternativesMatch(parts[1..], text, i, j);
      if k :| 0 <= k < |parts[1..]| && i + |parts[1..][k]| == j <= |text| && text[i..j] == parts[1..][k] {
        assert parts[k + 1] == parts[1..][k];
      }
      if k :| 0 <= k < |parts| && i + |parts[k]| == j <= |text| && text[i..j] == parts[k] {
        if k > 0 {
          assert parts[1..][k - 1] == parts[k];
        }
      }
    }
  }

  lemma DoneMatches(text: string, i: nat, j: nat)
    ensures BranchMatches(Done, text, i, j) <==> i == j <= |text|
  {
  }

  /** Literal text up to the end of the line. */
  lemma TailMatches(s: string, text: string, i: nat, j: nat)
    requires i <= |text|
    ensures BranchMatches(Text(s, Then(LineEnd, Done)), text, i, j) <==> j == |text| && text[i..] == s
  {
    var last := Then(LineEnd, Done);
    TextMatches(s, last, text, i, j);
    hide Text;
    if i + |s| <= |text| && text[i..i + |s|] == s && BranchMatches(last, text, i + |s|, j) {
      var k: nat :| AtomMatches(LineEnd, text, i + |s|, k) && BranchMatches(Done, text, k, j);
    }
    if j == |text| && text[i..] == s {
      assert AtomMatches(LineEnd, text, |text|, |text|) && BranchMatches(Done, text, |text|, |text|);
    }
  }

  /** The probe's pattern finds a command line exactly when it is one of the
      executables followed by each argument with one space before it. */
  lemma PatternIsExact(exes: seq<string>, args: seq<string>, line: string)
    requires exes != []
    ensures Read(PatternFor(exes, args).value).Some?
    ensures Finds(Read(PatternFor(exes, args).value).value, line)
            <==> exists k :: 0 <= k < |exes| && line == CommandLine(exes[k], args)
  {
    PatternReadsBack(exes, args);
    hide PatternFor, Read, Text, ArgText;
    if Finds(Meaning(exes, args), line) {
      var i: nat, j: nat :| SomeBranchMatches(Meaning(exes, args), line, i, j);
      FoundIsCommandLine(exes, args, line, i, j);
    }
    if k :| 0 <= k < |exes| && line == CommandLine(exes[k], args) {
      CommandLineIsFound(exes, args, k);
    }
  }

  lemma FoundIsCommandLine(exes: seq<string>, args: seq<string>, line: string, i: nat, j: nat)
    requires exes != [] && SomeBranchMatches(Meaning(exes, args), line, i, j)
    ensures exists k :: 0 <= k < |exes| && line == CommandLine(exes[k], args)
  {
    hide Text, ArgText, Alternatives;
    var tail := Text(ArgText(args), Then(LineEnd, Done));
    var body := if |exes| == 1 then Text(exes[0], tail) else Then(Group(Alternatives(exes)), tail);
    var m := SplitMatch(LineStart, body, line, i, j);
    if |exes| == 1 {
      TextMatches(exes[0], tail, line, 0, j);
      TailMatches(ArgText(args), line, |exes[0]|, j);
      assert line == line[..|exes[0]|] + line[|exes[0]|..];
    } else {
      var n := SplitMatch(Group(Alternatives(exes)), tail, line, 0, j);
      AlternativesMatch(exes, line, 0, n);
      TailMatches(ArgText(args), line, n, j);
      assert line == line[..n] + line[n..];
    }
  }

  lemma CommandLineIsFound(exes: seq<string>, args: seq<string>, k: nat)
    requires k < |exes|
    ensures Finds(Meaning(exes, args), CommandLine(exes[k], args))
  {
    hide Text, ArgText, Alternatives;
    var line, n := CommandLine(exes[k], args), |exes[k]|;
    var tail := Text(ArgText(args), Then(LineEnd, Done));
    TailMatches(ArgText(args), line, n, |line|);
    if |exes| == 1 {
      TextMatches(exes[0], tail, line, 0, |line|);
    } else {
      AlternativesMatch(exes, line, 0, n);
      assert line[0..n] == exes[k];
      JoinMatch(Group(Alternatives(exes)), tail, line, 0, n, |line|);
    }
    var body := if |exes| == 1 then Text(exes[0], tail) else Then(Group(Alternatives(exes)), tail);
    JoinMatch(LineStart, body, line, 0, 0, |line|);
    assert SomeBranchMatches(Meaning(exes, args), line, 0, |line|);
  }
}

/** The shell's view of the relaunch watcher: how POSIX splits a script into words
    and operators, and what it makes of quoted text. */
module ShellWords {
  /** A character, and whether quoting made it stand for itself. */
  datatype QChar = QChar(c: char, quoted: bool)

  datatype Token = Word(chars: seq<QChar>) | Operator(c: char)

  datatype Result = Tokens(tokens: seq<Token>) | Unterminated

  predicate IsSpace(c: char) {
    c == ' ' || c == '\t' || c == '\n'
  }

  predicate IsOperator(c: char) {
    c == ';' || c == '&' || c == '|' || c == '<' || c == '>'
  }

  predicate Breaks(c: char) {
    IsSpace(c) || IsOperator(c)
  }

  function Cons(t: Token, r: Result): Result {
    if r.Tokens? then Tokens([t] + r.tokens) else r
  }

  /** The word being read, when one is, ends here. */
  function Flush(word: seq<QChar>, reading: bool, r: Result): Result {
    if reading then Cons(Word(word), r) else r
  }

  /** Reading outside quotes. A single quote opens a quoted stretch of the same word,
      and a backslash quotes the next character. A double quote is not read: the
      script holds none outside its quoted words. */
  function Split(s: string, word: seq<QChar>, reading: bool): Result
    decreases |s|
  {
    if s == "" then Flush(word, reading, Tokens([]))
    else if IsSpace(s[0]) then Flush(word, reading, Split(s[1..], [], false))
    else if IsOperator(s[0]) then Flush(word, reading, Cons(Operator(s[0]), Split(s[1..], [], false)))
    else if s[0] == '\'' then SplitQuoted(s[1..], word)
    else if s[0] == '\\' then
      if |s| == 1 then Unterminated else Split(s[2..], word + [QChar(s[1], true)], true)
    else if s[0] == '\"' then Unterminated
    else Split(s[1..], word + [QChar(s[0], false)], true)
  }

  /** Reading inside single quotes, where every character stands for itself. */
  function SplitQuoted(s: string, word: seq<QChar>): Result
    decreases |s|
  {
    if s == "" then Unterminated
    else if s[0] == '\'' then Split(s[1..], word, true)
    else SplitQuoted(s[1..], word + [QChar(s[0], true)])
  }

  // ---- Quoting ----

  /** Each single quote closes the quotes, stands escaped, and reopens them. */
  function Escaped(s: string): string {
    if s == "" then "" else (if s[0] == '\'' then "'\\''" else [s[0]]) + Escaped(s[1..])
  }

  function ShQuote(s: string): string {
    "'" + Escaped(s) + "'"
  }

  function Quoted(s: string): seq<QChar> {
    if s == "" then [] else [QChar(s[0], true)] + Quoted(s[1..])
  }

  lemma {:induction false} EscapedIsRead(s: string, rest: string, word: seq<QChar>)
    ensures SplitQuoted(Escaped(s) + "'" + rest, word) == Split(rest, word + Quoted(s), true)
    decreases |s|
  {
    var text := Escaped(s) + "'" + rest;
    if s == "" {
      assert text[1..] == rest;
      assert word + [] == word;
    } else {
      var more := Escaped(s[1..]) + "'" + rest;
      EscapedIsRead(s[1..], rest, word + [QChar(s[0], true)]);
      assert (word + [QChar(s[0], true)]) + Quoted(s[1..]) == word + Quoted(s);
      if s[0] == '\'' {
        var quote := [QChar('\'', true)];
        assert text == "'\\''" + more;
        assert text[1..][2..] == "'" + more && text[1..][2..][1..] == more;
        assert Split("'" + more, word + quote, true) == SplitQuoted(more, word + quote);
        assert Split(text[1..], word, true) == Split(text[1..][2..], word + quote, true);
      } else {
        assert text[1..] == more;
      }
    }
  }

  /** Quoted text is exactly one word, that text, none of it left to the shell. */
  lemma QuotedIsOneWord(s: string, rest: string)
    requires rest == "" || Breaks(rest[0])
    ensures Split(ShQuote(s) + rest, [], false) == Cons(Word(Quoted(s)), Split(rest, [], false))
  {
    var text := ShQuote(s) + rest;
    assert text[1..] == Escaped(s) + "'" + rest;
    EscapedIsRead(s, rest, []);
    assert [] + Quoted(s) == Quoted(s);
    if rest != "" && IsOperator(rest[0]) {
      assert Split(rest, [], false) == Cons(Operator(rest[0]), Split(rest[1..], [], false));
    }
  }

  // ---- Scripts as fixed text and quoted arguments ----

  datatype Piece = Raw(text: string) | Argument(value: string)

  function Render(ps: seq<Piece>): string {
    if ps == [] then "" else (match ps[0] case Raw(t) => t case Argument(v) => ShQuote(v)) + Render(ps[1..])
  }

  /** Fixed text without quoting. */
  predicate IsPlain(t: string) {
    forall c :: c in t ==> c != '\'' && c != '\\' && c != '\"'
  }

  /** Fixed text alternates with arguments, and keeps them apart from other words. */
  predicate Separated(ps: seq<Piece>) {
    if ps == [] then true
    else match ps[0]
      case Raw(t) => IsPlain(t) && (ps[1..] == [] || (t != "" && Breaks(t[|t| - 1]))) && Separated(ps[1..])
      case Argument(_) =>
        (ps[1..] == [] || (ps[1].Raw? && ps[1].text != "" && Breaks(ps[1].text[0]))) && Separated(ps[1..])
  }

  function Concat(a: Result, b: Result): Result {
    if a.Tokens? && b.Tokens? then Tokens(a.tokens + b.tokens) else Unterminated
  }

  /** The tokens of a script: those of each fixed text, and one word per argument. */
  function PieceTokens(ps: seq<Piece>): Result {
    if ps == [] then Tokens([])
    else match ps[0]
      case Raw(t) => Concat(Split(t, [], false), PieceTokens(ps[1..]))
      case Argument(v) => Cons(Word(Quoted(v)), PieceTokens(ps[1..]))
  }

  lemma PlainTail(t: string)
    requires IsPlain(t) && t != ""
    ensures IsPlain(t[1..]) && t[0] != '\'' && t[0] != '\\' && t[0] != '\"'
  {
    assert t == [t[0]] + t[1..] && t[0] in t;
    assert forall c :: c in t[1..] ==> c in t;
  }

  lemma ConcatCons(t: Token, a: Result, b: Result)
    requires a.Tokens? && b.Tokens?
    ensures Concat(Cons(t, a), b) == Cons(t, Concat(a, b))
  {
    assert ([t] + a.tokens) + b.tokens == [t] + (a.tokens + b.tokens);
  }

  lemma FlushConcat(word: seq<QChar>, reading: bool, a: Result, b: Result)
    requires a.Tokens? && b.Tokens?
    ensures Concat(Flush(word, reading, a), b) == Flush(word, reading, Concat(a, b))
  {
    ConcatCons(Word(word), a, b);
  }

  lemma {:induction false} PlainSplits(t: string, rest: string, word: seq<QChar>, reading: bool)
    requires IsPlain(t) && t != "" && Breaks(t[|t| - 1]) && Split(rest, [], false).Tokens?
    ensures Split(t, word, reading).Tokens?
    ensures Split(t + rest, word, reading) == Concat(Split(t, word, reading), Split(rest, [], false))
    decreases |t|
  {
    hide Concat, Flush;
    PlainTail(t);
    var b := Split(rest, [], false);
    assert (t + rest)[1..] == t[1..] + rest && (t + rest)[0] == t[0];
    if Breaks(t[0]) {
      var tail := Split(t[1..], [], false);
      if |t| == 1 {
        NothingSplits(t[1..], b);
        assert t[1..] + rest == rest;
      } else {
        PlainSplits(t[1..], rest, [], false);
      }
      ConcatCons(Operator(t[0]), tail, b);
      FlushConcat(word, reading, if IsSpace(t[0]) then tail else Cons(Operator(t[0]), tail), b);
      FlushIsTokens(word, reading, if IsSpace(t[0]) then tail else Cons(Operator(t[0]), tail));
    } else {
      PlainSplits(t[1..], rest, word + [QChar(t[0], false)], true);
    }
  }

  lemma {:induction false} PlainHasTokens(t: string, word: seq<QChar>, reading: bool)
    requires IsPlain(t)
    ensures Split(t, word, reading).Tokens?
    decreases |t|
  {
    if t != "" {
      PlainTail(t);
      if Breaks(t[0]) {
        PlainHasTokens(t[1..], [], false);
      } else {
        PlainHasTokens(t[1..], word + [QChar(t[0], false)], true);
      }
    }
  }

  lemma FlushIsTokens(word: seq<QChar>, reading: bool, a: Result)
    requires a.Tokens?
    ensures Flush(word, reading, a).Tokens?
  {
  }

  lemma NothingSplits(t: string, b: Result)
    requires t == "" && b.Tokens?
    ensures Split(t, [], false) == Tokens([]) && Concat(Tokens([]), b) == b
  {
    assert [] + b.tokens == b.tokens;
  }

  /** A separated script splits into the tokens of its pieces: every quoted argument
      comes back as one word of its own, and nothing else changes. */
  lemma {:induction false} ScriptSplits(ps: seq<Piece>)
    requires Separated(ps)
    ensures Split(Render(ps), [], false) == PieceTokens(ps) && PieceTokens(ps).Tokens?
    decreases |ps|
  {
    if ps != [] {
      ScriptSplits(ps[1..]);
      match ps[0]
      case Raw(t) =>
        if ps[1..] == [] {
          assert t + "" == t;
          PlainHasTokens(t, [], false);
          assert Split(t, [], false).tokens + [] == Split(t, [], false).tokens;
        } else {
          PlainSplits(t, Render(ps[1..]), [], false);
        }
      case Argument(v) =>
        var rest := Render(ps[1..]);
        if ps[1..] != [] {
          assert ps[1..][0] == ps[1];
          assert rest[0] == ps[1].text[0];
        }
        QuotedIsOneWord(v, rest);
    }
  }
}

/** The watcher script itself. */
module RelaunchWatcher {
  import opened Wrappers
  import opened RunningPattern
  import opened ShellWords

  /** A path or argument as the operating system hands it over. */
  datatype OsText = Utf8(text: string) | NotUtf8

  datatype Outcome = Script(text: string) | Refused

  function Digit(n: nat): char
    requires n < 10
  {
    '0' + n as char
  }

  function Decimal(n: nat): (s: string)
    ensures s != "" && forall i :: 0 <= i < |s| ==> '0' <= s[i] <= '9'
  {
    if n < 10 then [Digit(n)] else Decimal(n / 10) + [Digit(n % 10)]
  }

  predicate AllUtf8(parts: seq<OsText>) {
    forall k :: 0 <= k < |parts| ==> parts[k].Utf8?
  }

  function TextsOf(parts: seq<OsText>): (r: seq<string>)
    requires AllUtf8(parts)
    ensures |r| == |parts| && forall k :: 0 <= k < |parts| ==> r[k] == parts[k].text
  {
    seq(|parts|, k requires 0 <= k < |parts| && parts[k].Utf8? => parts[k].text)
  }

  function StuckMessage(pid: string): string {
    "[relaunch] pid " + pid + " never exited, so Lucidos was not relaunched"
  }

  function RefusedMessage(bundle: string): string {
    "[relaunch] LaunchServices refused " + bundle
  }

  function GaveUpMessage(bundle: string): string {
    "[relaunch] gave up on " + bundle + " after 10 attempts; Lucidos must be started by hand"
  }

  // ---- The fixed text around the quoted words ----

  function WaitForExit(pid: string): string {
    "i=0; while [ $i -lt 3000 ] && kill -0 " + pid + " 2>/dev/null; do sleep 0.1; " + "i=$((i+1)); done; "
    + "if kill -0 " + pid + " 2>/dev/null; then echo "
  }

  function StartAsking(): string {
    " >&2; exit 1; fi; " + "a=0; while [ $a -lt 10 ]; do " + "/usr/bin/open -a "
  }

  function AskAgain(): string {
    " >&2; sleep 2; " + "/usr/bin/pgrep -f "
  }

  function StopAsking(): string {
    " >/dev/null 2>&1 && exit 0; " + "a=$((a+1)); done; " + "echo "
  }

  function ArgPieces(args: seq<string>, lead: string): seq<Piece> {
    if args == [] then [] else [Raw(lead), Argument(args[0])] + ArgPieces(args[1..], " ")
  }

  function ClosingPieces(bundle: string, running: string): seq<Piece> {
    [Raw(" || echo "), Argument(RefusedMessage(bundle)), Raw(AskAgain()), Argument(running),
     Raw(StopAsking()), Argument(GaveUpMessage(bundle)), Raw(" >&2; exit 1")]
  }

  /** The script: fixed text, and the texts it quotes, each in its place. */
  function ScriptPieces(pid: string, bundle: string, args: seq<string>, running: string): seq<Piece> {
    [Raw(WaitForExit(pid)), Argument(StuckMessage(pid)), Raw(StartAsking()), Argument(bundle)]
    + ArgPieces(args, " --args ") + ClosingPieces(bundle, running)
  }

  /** The script, unless a text is not UTF-8 or there is no executable to watch for. */
  function WatcherScript(pid: nat, bundle: OsText, exes: seq<OsText>, args: seq<OsText>): Outcome {
    if bundle.NotUtf8? || !AllUtf8(args) || !AllUtf8(exes) || exes == [] then Refused
    else
      Script(Render(ScriptPieces(Decimal(pid), bundle.text, TextsOf(args),
                                 PatternFor(TextsOf(exes), TextsOf(args)).value)))
  }

  lemma DigitsArePlain(s: string)
    requires forall i :: 0 <= i < |s| ==> '0' <= s[i] <= '9'
    ensures IsPlain(s)
  {
  }

  lemma PlainConcat(a: string, b: string)
    requires IsPlain(a) && IsPlain(b)
    ensures IsPlain(a + b)
  {
  }

  /** Text that may stand before a quoted word, and text that may also follow one. */
  predicate Leads(t: string) {
    IsPlain(t) && t != "" && Breaks(t[|t| - 1])
  }

  predicate Stands(t: string) {
    Leads(t) && t[0] == ' '
  }

  lemma LeadsConcat(a: string, b: string)
    requires IsPlain(a) && Leads(b)
    ensures Leads(a + b) && (a != "" && a[0] == ' ' ==> Stands(a + b))
  {
    PlainConcat(a, b);
    hide IsPlain;
  }

  lemma SixLead(a: string, b: string, c: string, d: string, e: string, pid: string)
    requires IsPlain(a) && IsPlain(b) && IsPlain(c) && IsPlain(d) && IsPlain(pid) && Leads(e)
    ensures Leads(a + pid + b + c + d + pid + e)
  {
    hide IsPlain, Leads;
    PlainConcat(a, pid);
    PlainConcat(a + pid, b);
    PlainConcat(a + pid + b, c);
    PlainConcat(a + pid + b + c, d);
    PlainConcat(a + pid + b + c + d, pid);
    LeadsConcat(a + pid + b + c + d + pid, e);
  }

  lemma ThreeStand(a: string, b: string, c: string)
    requires IsPlain(a) && IsPlain(b) && Leads(c) && a != "" && a[0] == ' '
    ensures Stands(a + b + c)
  {
    hide IsPlain, Leads;
    PlainConcat(a, b);
    LeadsConcat(a + b, c);
  }

  lemma WaitIsPlain()
    ensures IsPlain("i=0; while [ $i -lt 3000 ] && kill -0 ") && IsPlain("if kill -0 ")
    ensures Leads(" 2>/dev/null; then echo ")
  {
  }

  lemma LoopIsPlain()
    ensures IsPlain(" 2>/dev/null; do sleep 0.1; ") && IsPlain("i=$((i+1)); done; ")
  {
  }

  lemma WaitForExitLeads(pid: string)
    requires IsPlain(pid)
    ensures Leads(WaitForExit(pid))
  {
    hide IsPlain, Leads;
    WaitIsPlain();
    LoopIsPlain();
    SixLead("i=0; while [ $i -lt 3000 ] && kill -0 ", " 2>/dev/null; do sleep 0.1; ", "i=$((i+1)); done; ", "if kill -0 ",
            " 2>/dev/null; then echo ", pid);
  }

  lemma AskingIsPlain()
    ensures IsPlain(" >&2; exit 1; fi; ") && IsPlain("a=0; while [ $a -lt 10 ]; do ") && Leads("/usr/bin/open -a ")
  {
  }

  lemma StartAskingStands()
    ensures Stands(StartAsking())
  {
    hide IsPlain, Leads, Stands;
    AskingIsPlain();
    ThreeStand(" >&2; exit 1; fi; ", "a=0; while [ $a -lt 10 ]; do ", "/usr/bin/open -a ");
  }

  lemma AskAgainStands()
    ensures Stands(AskAgain())
  {
    var a, b := " >&2; sleep 2; ", "/usr/bin/pgrep -f ";
    assert IsPlain(a) && Leads(b) && a[0] == ' ';
    LeadsConcat(a, b);
  }

  lemma StopAskingStands()
    ensures Stands(StopAsking())
  {
    var a, b, c := " >/dev/null 2>&1 && exit 0; ", "a=$((a+1)); done; ", "echo ";
    assert IsPlain(a) && IsPlain(b) && Leads(c) && (a + b)[0] == ' ';
    hide IsPlain, Leads;
    PlainConcat(a, b);
    LeadsConcat(a + b, c);
  }

  lemma SeparatedCons(lead: string, value: string, rest: seq<Piece>)
    requires Leads(lead)
    requires Separated(rest) && rest != [] && rest[0].Raw? && rest[0].text != "" && Breaks(rest[0].text[0])
    ensures Separated([Raw(lead), Argument(value)] + rest)
  {
    hide IsPlain;
    var all := [Raw(lead), Argument(value)] + rest;
    assert all[1..][1..] == rest && all[1..][0] == Argument(value) && all[1..][1] == rest[0];
  }

  lemma ClosingIsSeparated(bundle: string, running: string)
    ensures Separated(ClosingPieces(bundle, running))
    ensures ClosingPieces(bundle, running) != [] && ClosingPieces(bundle, running)[0] == Raw(" || echo ")
  {
    AskAgainStands();
    StopAskingStands();
    assert Leads(" || echo ") && IsPlain(" >&2; exit 1");
    hide AskAgain, StopAsking, StartAsking, RefusedMessage, GaveUpMessage, IsPlain;
    var last := [Raw(" >&2; exit 1")];
    assert last[1..] == [] && Separated(last);
    SeparatedCons(StopAsking(), GaveUpMessage(bundle), last);
    var two := [Raw(StopAsking()), Argument(GaveUpMessage(bundle))] + last;
    SeparatedCons(AskAgain(), running, two);
    var three := [Raw(AskAgain()), Argument(running)] + two;
    SeparatedCons(" || echo ", RefusedMessage(bundle), three);
    assert ClosingPieces(bundle, running) == [Raw(" || echo "), Argument(RefusedMessage(bundle))] + three;
  }

  lemma {:induction false} ArgsAreSeparated(args: seq<string>, lead: string, closing: seq<Piece>)
    requires lead == " --args " || lead == " "
    requires Separated(closing) && closing != [] && closing[0] == Raw(" || echo ")
    ensures Separated(ArgPieces(args, lead) + closing)
    ensures
      var all := ArgPieces(args, lead) + closing;
      all[0].Raw? && all[0].text != "" && all[0].text[0] == ' '
    decreases |args|
  {
    if args == [] {
      assert ArgPieces(args, lead) + closing == closing;
    } else {
      ArgsAreSeparated(args[1..], " ", closing);
      var rest := ArgPieces(args[1..], " ") + closing;
      assert ArgPieces(args, lead) + closing == [Raw(lead), Argument(args[0])] + rest;
      SeparatedCons(lead, args[0], rest);
    }
  }

  lemma ScriptIsSeparated(pid: string, bundle: string, args: seq<string>, running: string)
    requires IsPlain(pid)
    ensures Separated(ScriptPieces(pid, bundle, args, running))
  {
    hide IsPlain, WaitForExit, StartAsking, AskAgain, StopAsking, ClosingPieces, ArgPieces, StuckMessage, Separated;
    WaitForExitLeads(pid);
    StartAskingStands();
    ClosingIsSeparated(bundle, running);
    ArgsAreSeparated(args, " --args ", ClosingPieces(bundle, running));
    var rest := ArgPieces(args, " --args ") + ClosingPieces(bundle, running);
    SeparatedCons(StartAsking(), bundle, rest);
    var middle := [Raw(StartAsking()), Argument(bundle)] + rest;
    SeparatedCons(WaitForExit(pid), StuckMessage(pid), middle);
    assert ScriptPieces(pid, bundle, args, running) == [Raw(WaitForExit(pid)), Argument(StuckMessage(pid))] + middle;
  }

  /** Whatever the bundle, the executables and the arguments are called, the shell
      reads the script as its fixed text with each quoted text as one word of its
      own, equal to that text and none of it expanded. */
  lemma EveryQuotedTextIsOneWord(pid: nat, bundle: OsText, exes: seq<OsText>, args: seq<OsText>)
    requires WatcherScript(pid, bundle, exes, args).Script?
    ensures
      var running := PatternFor(TextsOf(exes), TextsOf(args)).value;
      var ps := ScriptPieces(Decimal(pid), bundle.text, TextsOf(args), running);
      && PieceTokens(ps).Tokens?
      && Split(WatcherScript(pid, bundle, exes, args).text, [], false) == PieceTokens(ps)
  {
    hide ScriptPieces, Render, Split, PieceTokens, PatternFor, Decimal, IsPlain;
    DigitsArePlain(Decimal(pid));
    var running := PatternFor(TextsOf(exes), TextsOf(args)).value;
    ScriptIsSeparated(Decimal(pid), bundle.text, TextsOf(args), running);
    ScriptSplits(ScriptPieces(Decimal(pid), bundle.text, TextsOf(args), running));
  }

  /** The probe looks for exactly what the watcher asks to have launched. */
  lemma ProbeFindsWhatIsLaunched(pid: nat, bundle: OsText, exes: seq<OsText>, args: seq<OsText>, line: string)
    requires WatcherScript(pid, bundle, exes, args).Script?
    ensures
      var (paths, texts) := (TextsOf(exes), TextsOf(args));
      var read := ExtendedRegex.Read(PatternFor(paths, texts).value);
      && Argument(PatternFor(paths, texts).value) in ScriptPieces(Decimal(pid), bundle.text, texts, PatternFor(paths, texts).value)
      && read.Some?
      && (ExtendedRegex.Finds(read.value, line) <==> exists k :: 0 <= k < |paths| && line == CommandLine(paths[k], texts))
  {
    var paths, texts := TextsOf(exes), TextsOf(args);
    PatternIsExact(paths, texts, line);
    hide PatternFor, ExtendedRegex.Read, ArgPieces, WaitForExit, StartAsking, AskAgain, StopAsking;
    var running := PatternFor(paths, texts).value;
    var closing := ClosingPieces(bundle.text, running);
    assert closing[3] == Argument(running);
    assert Argument(running) in closing;
  }
}
