/** How crates/lucidos-app/src/desktop.rs reads the service's boot log. */
module BootLog {
  import opened Wrappers
  import opened Strings
  import opened Sequences

  function StartMarker(): string { "[service] boot starting" }

  function FailedMarker(): string { "boot failed:" }

  // ---- The lines of the window ----

  function LineBreak(s: string, i: nat): (r: nat)
    requires i <= |s|
    ensures i <= r <= |s| && (r < |s| ==> s[r] == '\n') && forall k :: i <= k < r ==> s[k] != '\n'
    decreases |s| - i
  {
    if i == |s| || s[i] == '\n' then i else LineBreak(s, i + 1)
  }

  function DropReturn(s: string): string {
    if s != "" && s[|s| - 1] == '\r' then s[..|s| - 1] else s
  }

  /** Lines end in a line feed, which a carriage return may precede. The last one need not
      end. */
  function LinesOf(s: string): seq<string>
    decreases |s|
  {
    if s == "" then []
    else
      var e := LineBreak(s, 0);
      if e == |s| then [s] else [DropReturn(s[..e])] + LinesOf(s[e + 1..])
  }

  function Written(lines: seq<string>): string
    decreases |lines|
  {
    if lines == [] then "" else lines[0] + "\n" + Written(lines[1..])
  }

  /** A text that a producer can write as one line. */
  predicate IsOneLine(s: string) {
    '\n' !in s && (s != "" ==> s[|s| - 1] != '\r')
  }

  /** What was written line by line is read line by line. */
  lemma {:induction false} WrittenLinesReadBack(lines: seq<string>)
    requires forall i :: 0 <= i < |lines| ==> IsOneLine(lines[i])
    ensures LinesOf(Written(lines)) == lines
    decreases |lines|
  {
    hide IsOneLine;
    if lines != [] {
      var line, rest := lines[0], Written(lines[1..]);
      WrittenLinesReadBack(lines[1..]);
      hide Written, LinesOf;
      FirstLineReadsBack(line, rest);
      assert Written(lines) == line + "\n" + rest by { WrittenCons(lines); }
    }
  }

  lemma WrittenCons(lines: seq<string>)
    requires lines != []
    ensures Written(lines) == lines[0] + "\n" + Written(lines[1..])
  {
  }

  lemma FirstLineReadsBack(line: string, rest: string)
    requires IsOneLine(line)
    ensures LinesOf(line + "\n" + rest) == [line] + LinesOf(rest)
  {
    var s := line + "\n" + rest;
    assert s[|line|] == '\n' && forall k :: 0 <= k < |line| ==> s[k] == line[k];
    assert LineBreak(s, 0) == |line|;
    hide LineBreak;
    assert s[..|line|] == line && s[|line| + 1..] == rest;
  }

  /** A carriage return before the line feed is no part of the line. */
  lemma ReturnIsDropped(line: string, rest: string)
    requires IsOneLine(line)
    ensures LinesOf(line + "\r\n" + rest) == [line] + LinesOf(rest)
  {
    var s := line + "\r\n" + rest;
    assert s[|line|] == '\r' && s[|line| + 1] == '\n' && forall k :: 0 <= k < |line| ==> s[k] == line[k];
    assert LineBreak(s, 0) == |line| + 1;
    hide LineBreak;
    assert s[..|line| + 1] == line + ['\r'] && s[|line| + 2..] == rest;
    assert DropReturn(line + ['\r']) == line;
  }

  // ---- What a line says ----

  /** Where the text first stands at `i` or later. */
  function Find(s: string, part: string, i: nat): (r: Option<nat>)
    ensures r.Some? ==> i <= r.value && At(s, r.value, part) && forall k :: i <= k < r.value ==> !At(s, k, part)
    ensures r.None? ==> forall k :: i <= k ==> !At(s, k, part)
    decreases |s| - i
  {
    if At(s, i, part) then Some(i) else if i >= |s| then None else Find(s, part, i + 1)
  }

  predicate Contains(s: string, part: string) { Find(s, part, 0).Some? }

  /** White space, as the language runtime knows it. */
  type Spaces = char -> bool

  function TrimStart(space: Spaces, s: string): string {
    if s != "" && space(s[0]) then TrimStart(space, s[1..]) else s
  }

  function TrimEnd(space: Spaces, s: string): string {
    if s != "" && space(s[|s| - 1]) then TrimEnd(space, s[..|s| - 1]) else s
  }

  function Trim(space: Spaces, s: string): string { TrimEnd(space, TrimStart(space, s)) }

  predicate AllSpace(space: Spaces, s: string) {
    forall k :: 0 <= k < |s| ==> space(s[k])
  }

  /** Nothing is left, or a text that no space starts or ends. */
  predicate IsBare(space: Spaces, r: string) {
    r != "" ==> !space(r[0]) && !space(r[|r| - 1])
  }

  lemma {:induction false} TrimStartSplits(space: Spaces, s: string) returns (before: string)
    ensures s == before + TrimStart(space, s) && AllSpace(space, before)
    ensures TrimStart(space, s) != "" ==> !space(TrimStart(space, s)[0])
    decreases |s|
  {
    if s != "" && space(s[0]) {
      var more := TrimStartSplits(space, s[1..]);
      before := [s[0]] + more;
      assert s == [s[0]] + s[1..];
    } else {
      before := "";
    }
  }

  lemma {:induction false} TrimEndSplits(space: Spaces, s: string) returns (after: string)
    ensures s == TrimEnd(space, s) + after && AllSpace(space, after)
    ensures TrimEnd(space, s) != "" ==> !space(TrimEnd(space, s)[|TrimEnd(space, s)| - 1])
    decreases |s|
  {
    if s != "" && space(s[|s| - 1]) {
      var init, last := s[..|s| - 1], [s[|s| - 1]];
      var t := TrimEnd(space, init);
      var more := TrimEndSplits(space, init);
      assert TrimEnd(space, s) == t;
      hide TrimEnd;
      after := more + last;
      assert s == init + last;
      assert init + last == t + (more + last) by { Associate(t, more, last); }
    } else {
      after := "";
    }
  }

  /** A trimmed text stands between spaces, and no space starts or ends it. */
  lemma TrimSplits(space: Spaces, s: string) returns (before: string, after: string)
    ensures s == before + Trim(space, s) + after
    ensures AllSpace(space, before) && AllSpace(space, after) && IsBare(space, Trim(space, s))
  {
    before := TrimStartSplits(space, s);
    after := TrimEndSplits(space, TrimStart(space, s));
  }

  lemma {:induction false} SpacesGoFirst(space: Spaces, before: string, s: string)
    requires AllSpace(space, before)
    ensures TrimStart(space, before + s) == TrimStart(space, s)
    decreases |before|
  {
    if before == "" {
      assert before + s == s;
    } else {
      assert (before + s)[1..] == before[1..] + s;
      SpacesGoFirst(space, before[1..], s);
    }
  }

  lemma {:induction false} SpacesGoLast(space: Spaces, s: string, after: string)
    requires AllSpace(space, after)
    ensures TrimEnd(space, s + after) == TrimEnd(space, s)
    decreases |after|
  {
    if after == "" {
      assert s + after == s;
    } else {
      assert (s + after)[..|s + after| - 1] == s + after[..|after| - 1];
      SpacesGoLast(space, s, after[..|after| - 1]);
    }
  }

  /** So there is one trimmed text only. */
  lemma TrimIsUnique(space: Spaces, before: string, r: string, after: string)
    requires AllSpace(space, before) && AllSpace(space, after) && IsBare(space, r)
    ensures Trim(space, before + r + after) == r
  {
    assert before + r + after == before + (r + after);
    SpacesGoFirst(space, before, r + after);
    if r == "" {
      assert r + after == after + "";
      SpacesGoFirst(space, after, "");
    } else {
      assert (r + after)[0] == r[0];
      SpacesGoLast(space, r, after);
    }
  }

  /** A line of the log: the marker of a start, a failure with its reason (trimmed, and not
      empty), or anything else. */
  datatype Line = Start | Failure(reason: string) | Other

  /** What a line says. A start's marker goes before a failure's, and a failure without a
      reason says nothing. */
  function LineOf(space: Spaces, text: string): Line {
    if Contains(text, StartMarker()) then Start
    else
      match Find(text, FailedMarker(), 0)
      case None => Other
      case Some(k) =>
        var reason := Trim(space, text[k + |FailedMarker()|..]);
        if reason == "" then Other else Failure(reason)
  }

  function LinesRead(space: Spaces, window: string): (r: seq<Line>)
    ensures |r| == |LinesOf(window)| && forall i :: 0 <= i < |r| ==> r[i] == LineOf(space, LinesOf(window)[i])
  {
    seq(|LinesOf(window)|, i requires 0 <= i < |LinesOf(window)| => LineOf(space, LinesOf(window)[i]))
  }

  /** A line is a failure with this reason iff no start's marker is in it, and the reason is
      what stands, between spaces, after the first marker of a failure. */
  lemma FailureIsExact(space: Spaces, text: string, reason: string)
    ensures LineOf(space, text) == Failure(reason) <==>
      && reason != "" && IsBare(space, reason)
      && (forall k: nat :: !At(text, k, StartMarker()))
      && exists k: nat, before, after :: IsFailureAt(space, text, k, before, reason, after)
  {
    hide Trim, At, StartMarker, FailedMarker;
    if LineOf(space, text) == Failure(reason) {
      var k := Find(text, FailedMarker(), 0).value;
      FirstIsInside(text, k);
      var before, after := TrimSplits(space, text[k + |FailedMarker()|..]);
      assert IsFailureAt(space, text, k, before, reason, after);
    }
    if k: nat, before, after :| IsFailureAt(space, text, k, before, reason, after) {
      assert Find(text, FailedMarker(), 0) == Some(k);
      if IsBare(space, reason) {
        TrimIsUnique(space, before, reason, after);
      }
    }
  }

  lemma FirstIsInside(text: string, k: nat)
    requires At(text, k, FailedMarker())
    ensures k + |FailedMarker()| <= |text|
  {
    hide FailedMarker;
  }

  ghost predicate IsFailureAt(space: Spaces, text: string, k: nat, before: string, reason: string, after: string) {
    && At(text, k, FailedMarker()) && (forall j :: 0 <= j < k ==> !At(text, j, FailedMarker()))
    && k + |FailedMarker()| <= |text|
    && text[k + |FailedMarker()|..] == before + reason + after && AllSpace(space, before) && AllSpace(space, after)
  }

  // ---- What the service writes ----

  function FailedPrefix(): string { "[service] boot failed: " }

  /** The line that a failed start of the service writes is read as that failure, with the
      reason trimmed, unless the reason holds the marker of a start, or is blank. */
  lemma WrittenFailureReadsBack(space: Spaces, reason: string)
    requires space(' ')
    ensures LineOf(space, FailedPrefix() + reason)
         == if Contains(reason, StartMarker()) then Start
            else if Trim(space, reason) == "" then Other else Failure(Trim(space, reason))
  {
    var text := FailedPrefix() + reason;
    MarkersInPrefix(reason);
    hide Trim, At, StartMarker, FailedPrefix;
    assert |FailedMarker()| == 12;
    assert Find(text, FailedMarker(), 0) == Some(10);
    assert text[22..] == " " + reason by { PrefixEnds(reason); }
    hide FailedMarker;
    BlankBefore(space, reason);
    StartIsInReason(reason);
  }

  /** The line that every start of the service writes first is read as a start. */
  lemma WrittenStartReadsBack(space: Spaces, rest: string)
    ensures LineOf(space, "[service] boot starting" + rest) == Start
  {
    var text := "[service] boot starting" + rest;
    assert text[0..23] == StartMarker();
    assert At(text, 0, StartMarker());
  }

  lemma PrefixEnds(reason: string)
    ensures (FailedPrefix() + reason)[22..] == " " + reason
  {
  }

  lemma BlankBefore(space: Spaces, reason: string)
    requires space(' ')
    ensures Trim(space, " " + reason) == Trim(space, reason)
  {
    SpacesGoFirst(space, " ", reason);
  }

  /** The failure's marker stands first at 10, and no start's marker begins in the prefix. */
  lemma MarkersInPrefix(reason: string)
    ensures
      var text := FailedPrefix() + reason;
      && At(text, 10, FailedMarker()) && (forall j :: 0 <= j < 10 ==> !At(text, j, FailedMarker()))
      && forall j :: 0 <= j < 23 ==> !At(text, j, StartMarker())
  {
    var text := FailedPrefix() + reason;
    var m := FailedMarker();
    assert |FailedPrefix()| == 23;
    assert forall j :: 0 <= j < 23 ==> text[j] == FailedPrefix()[j];
    assert text[10..22] == m;
    forall j | 0 <= j < 10 ensures !At(text, j, m) {
      Differs(text, j, m, 0);
    }
    forall j | 0 <= j < 23 ensures !At(text, j, StartMarker()) {
      Differs(text, j, StartMarker(), if j == 0 then 15 else 0);
    }
  }

  lemma Differs(s: string, i: nat, part: string, k: nat)
    requires k < |part| && (i + k < |s| ==> s[i + k] != part[k])
    ensures !At(s, i, part)
  {
    if i + |part| <= |s| {
      assert s[i..i + |part|][k] == s[i + k];
    }
  }

  /** A start's marker is in the line iff it is in the reason. */
  lemma StartIsInReason(reason: string)
    ensures Contains(FailedPrefix() + reason, StartMarker()) <==> Contains(reason, StartMarker())
  {
    var text := FailedPrefix() + reason;
    MarkersInPrefix(reason);
    assert |FailedPrefix()| == 23;
    hide StartMarker, FailedMarker, FailedPrefix;
    forall j: nat ensures At(text, j + 23, StartMarker()) <==> At(reason, j, StartMarker()) {
      var n := |StartMarker()|;
      if j + n <= |reason| {
        assert text[j + 23..j + 23 + n] == reason[j..j + n];
      }
    }
    var k := Find(text, StartMarker(), 0);
    if k.Some? {
      assert k.value >= 23;
      assert At(reason, k.value - 23, StartMarker());
    }
  }

  datatype Report = Report(boots: nat, reason: Option<string>)

  function Starts(lines: seq<Line>): nat {
    if lines == [] then 0
    else Starts(lines[..|lines| - 1]) + if lines[|lines| - 1].Start? then 1 else 0
  }

  /** Line `at` is the first failure of the start marked at `from`. */
  predicate FirstFailureOf(lines: seq<Line>, from: nat, at: nat) {
    from < at < |lines| && lines[from].Start? && lines[at].Failure?
    && forall k :: from < k < at ==> lines[k].Other?
  }

  /** Some start of the window has a first failure at `at`. */
  predicate IsFirstFailure(lines: seq<Line>, at: nat) {
    exists from :: 0 <= from < at && FirstFailureOf(lines, from, at)
  }

  /** The reason to report: of the last start that failed, its first failure. */
  ghost predicate Reports(lines: seq<Line>, reason: Option<string>) {
    if reason.None? then forall at :: 0 <= at < |lines| ==> !IsFirstFailure(lines, at)
    else exists at :: 0 <= at < |lines| && LastFirstFailure(lines, at) && lines[at] == Failure(reason.value)
  }

  ghost predicate LastFirstFailure(lines: seq<Line>, at: nat) {
    IsFirstFailure(lines, at) && forall later :: at < later < |lines| ==> !IsFirstFailure(lines, later)
  }

  /** What the loop knows of the start being read: whether it has failed already. */
  ghost predicate StartIsClean(lines: seq<Line>) {
    exists from :: 0 <= from < |lines| && lines[from].Start? && forall k :: from < k < |lines| ==> lines[k].Other?
  }

  lemma FirstFailureIsOld(lines: seq<Line>, line: Line, at: nat)
    requires at < |lines|
    ensures IsFirstFailure(lines + [line], at) <==> IsFirstFailure(lines, at)
  {
    forall from | 0 <= from < at
      ensures FirstFailureOf(lines + [line], from, at) <==> FirstFailureOf(lines, from, at)
    {
      assert (lines + [line])[..|lines|] == lines;
    }
    if IsFirstFailure(lines + [line], at) {
      var from :| 0 <= from < at && FirstFailureOf(lines + [line], from, at);
      assert FirstFailureOf(lines, from, at);
    }
    if IsFirstFailure(lines, at) {
      var from :| 0 <= from < at && FirstFailureOf(lines, from, at);
      assert FirstFailureOf(lines + [line], from, at);
    }
  }

  lemma NewFailureCounts(lines: seq<Line>, line: Line)
    ensures IsFirstFailure(lines + [line], |lines|) <==> line.Failure? && StartIsClean(lines)
  {
    var longer := lines + [line];
    if IsFirstFailure(longer, |lines|) {
      var from :| 0 <= from < |lines| && FirstFailureOf(longer, from, |lines|);
      assert lines[from].Start? && forall k :: from < k < |lines| ==> longer[k] == lines[k];
    }
    if line.Failure? && StartIsClean(lines) {
      var from :| 0 <= from < |lines| && lines[from].Start? && forall k :: from < k < |lines| ==> lines[k].Other?;
      assert FirstFailureOf(longer, from, |lines|);
    }
  }

  lemma ReportGrows(lines: seq<Line>, line: Line, reason: Option<string>)
    requires Reports(lines, reason)
    ensures Reports(lines + [line],
              if line.Failure? && StartIsClean(lines) then Some(line.reason) else reason)
  {
    hide IsFirstFailure, StartIsClean;
    var longer := lines + [line];
    NewFailureCounts(lines, line);
    forall at | 0 <= at < |lines| ensures IsFirstFailure(longer, at) <==> IsFirstFailure(lines, at) {
      FirstFailureIsOld(lines, line, at);
    }
    if line.Failure? && StartIsClean(lines) {
      assert LastFirstFailure(longer, |lines|) && longer[|lines|] == Failure(line.reason);
    } else if reason.Some? {
      var at :| 0 <= at < |lines| && LastFirstFailure(lines, at) && lines[at] == Failure(reason.value);
      assert LastFirstFailure(longer, at) && longer[at] == lines[at];
    }
  }

  lemma CleanAfter(lines: seq<Line>, line: Line)
    ensures StartIsClean(lines + [line]) <==> line.Start? || (line.Other? && StartIsClean(lines))
  {
    var longer := lines + [line];
    if line.Start? {
      assert longer[|lines|].Start?;
    }
    if StartIsClean(longer) && !line.Start? {
      var from :| 0 <= from < |longer| && longer[from].Start? && forall k :: from < k < |longer| ==> longer[k].Other?;
      assert longer[|lines|].Other?;
      assert lines[from].Start? && forall k :: from < k < |lines| ==> longer[k] == lines[k];
    }
    if line.Other? && StartIsClean(lines) {
      var from :| 0 <= from < |lines| && lines[from].Start? && forall k :: from < k < |lines| ==> lines[k].Other?;
      assert longer[from].Start?;
    }
  }

  /** parse_service_boots: counts the starts, and finds the reason of the last that failed. */
  method ParseServiceBoots(space: Spaces, window: string) returns (report: Report)
    ensures report.boots == Starts(LinesRead(space, window))
    ensures Reports(LinesRead(space, window), report.reason)
  {
    hide Reports, StartIsClean, StartMarker, FailedMarker, Trim, At;
    var texts := LinesOf(window);
    ghost var lines := LinesRead(space, window);
    var boots := 0;
    var current, lastFailed: Option<string> := None, None;
    NothingYet();
    for n := 0 to |texts|
      invariant boots == Starts(lines[..n])
      invariant StartIsClean(lines[..n]) <==> boots > 0 && current.None?
      invariant Reports(lines[..n], lastFailed)
    {
      assert lines[..n + 1] == lines[..n] + [lines[n]];
      CleanAfter(lines[..n], lines[n]);
      ReportGrows(lines[..n], lines[n], lastFailed);
      if Contains(texts[n], StartMarker()) {
        boots := boots + 1;
        current := None;
        continue;
      }
      if boots == 0 || current.Some? {
        continue;
      }
      var at := Find(texts[n], FailedMarker(), 0);
      if at.Some? {
        FirstIsInside(texts[n], at.value);
        var reason := Trim(space, texts[n][at.value + |FailedMarker()|..]);
        if reason != "" {
          current := Some(reason);
          lastFailed := current;
        }
      }
    }
    assert lines[..|texts|] == lines;
    report := Report(boots, lastFailed);
  }

  lemma NothingYet()
    ensures Reports([], None) && !StartIsClean([])
  {
  }
}
