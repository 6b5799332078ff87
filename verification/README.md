# Lucidos: verified models of its hard parts

Lucidos is a local-first application: a desktop client, a gateway that serves
workspaces, an engine per workspace, and scripts around them. This project models
the parts of it whose correctness is not visible from reading one function, and
proves what they promise. `dafny verify dfyconfig.toml` checks all of it.

| file | what it models |
|---|---|
| ModuleGraph.dfy, CycleReport.dfy | the search for cycles between engine modules: Tarjan's algorithm, the clean-up of the edges before it, the report after it |
| CommentLexer.dfy, CommentStripper.dfy | the two-language comment stripper: every scanner of the lexer, the grouping into blocks, the cuts, the back-to-front splice |
| LexemeEnds.dfy, LexedShapes.dfy, TemplateSources.dfy, StripMeaning.dfy | the same without its scanners and helpers: where each literal and comment starts and ends, what goes and how, and sources that are read and stripped as they were written |
| GeneratedBlocks.dfy | the parser and printer of generated blocks in documents |
| RunScheduler.dfy, SchedulerTiming.dfy, SchedulerHistory.dfy | the two-slot run scheduler: queues, slots, crashes, the memory watchdog, the closing window, the launch stagger; and what its disk and queues tell of the history behind them |
| PermutationTest.dfy | the exact permutation test of the same tool, over real numbers |
| CrashWatchdog.dfy | the per-window reload watchdog over two shared maps |
| WindowPlans.dfy, ReopenTheorems.dfy, LaunchPlans.dfy | the plans that reopen and launch windows, and what applying them does |
| RelaunchScript.dfy | the relaunch watcher: an extended regular expression and a shell script, each read back by a model of its standard (section 9.4 of the POSIX.1 Base Definitions; sections 2.2 and 2.3 of the POSIX Shell Command Language) |
| ServiceTeardown.dfy, BootLog.dfy | the service's teardown within launchd's budget, the next-boot record, and how the client reads the boot log |
| Wrappers.dfy | the option type and the few facts on sequences and strings that the modules share |
| ServiceWorker.dfy, CacheUse.dfy | the service worker's routes, its whole-body reader, its caches under interleaved handlers of many workers, and when an answer comes from them |
| ElfBundle.dfy | the worklist that bundles shared libraries, over an abstract file system |

Code that changes state is modelled by classes and loops, each proved equal to a
function of the old state; the results are about those functions. Concurrency is a
state machine whose steps run from one lock release, or from one `await`, to the next.

Eight promises hold only under a condition, and the model says which:

- A second reopen changes nothing exactly when a `main` window is alive. Without one,
  every further reopen adds a window, however many there are (`ReopenTwice`): an entry
  recorded as `main` is built again each time (`MainIsBuiltAgain`), and without such an
  entry a spare window is made, although the comment there says it is for when there is
  nothing at all to come back to.
- A run that the window cut once is not cut again exactly when making its sandbox,
  and the time between the two clock readings of the poll loop, together take at
  most 30 seconds (`NeverCutAgainExactly`).
- A word that removed comments follow at once keeps its end exactly when what follows the
  comments would not continue it, or when the tool puts a space there: for one comment,
  with no dollar sign on either side (`WordsStayApartExactly`). Otherwise the word and what
  follows fuse (`TwoCommentsFuse`, `DollarWordsFuse`, `DollarIsJoined`); the tool's
  comparison of tokens then refuses the file.
- A signalled engine is waited for, and so accounted for before the database stops,
  exactly when a workspace that names it has a name that can be read
  (`SignalledIsWaitedForExactly`). An engine of another workspace gets its signal, and the
  database may stop while it runs (`UnreadableIsLeftRunning`).
- A new worker's purge leaves no cache but its own two and those that were opened again
  after it listed them (`OnlyKeptAndReopenedRemain`). A navigation that an old build is
  still answering does open one, and nothing deletes it (`AnOldBuildLeavesItsCache`).
- A page that beats again is caught as fast as on its first crash exactly when none of the
  reloads before the beat was futile (`BackoffOutlivesTheBeat`). Otherwise its next silence
  must outlast the backoff they earned, up to 32 minutes: the beat clears the backoff only
  at the reload after it.
- After a tick of the watchdog its heartbeat map holds the live windows and those that
  beat while it swept, so exactly the live ones iff each of those is live
  (`OnlyLateBeatsStay`).
- Shell keys and bundle URLs of all workspaces on one origin are apart unless a
  workspace other than the one asking is called `assets` (`ClashIsTheAssetsSlug`,
  `ClashPutsHtmlUnderABundle`).

For generated blocks, the line-feed framing that `load` asks of a fragment is not
needed for any result here. That a fragment opens no marker is (`SpliceThenCheck`).

## Model

| member | source | states |
|---|---|---|
| Tarjan.Search.Visit | scripts/engine-module-graph.py:135-154 | a visit keeps the full invariant (stack, low-links, emitted components), indexes its unit first, and leaves everything older as it was |
| Tarjan.Search.FollowEdge | scripts/engine-module-graph.py:140-145 | following one edge, by a nested visit, by a stacked target's index, or not at all, leaves `low` a true bound for the edges looked at so far |
| Tarjan.Search.PopThrough | scripts/engine-module-graph.py:146-154 | the pop loop takes exactly the units stacked since the root, newest first |
| Tarjan.AfterChild | scripts/engine-module-graph.py:140-143 | folding a child's low-link into its parent's keeps it the index of a reachable stacked unit, and a bound on every edge below |
| Tarjan.SegmentIsConnected | scripts/engine-module-graph.py:146-154 | each unit stacked since a root reaches the root and is reached by it |
| Tarjan.EmitKeeps | scripts/engine-module-graph.py:146-154 | emitting a finished root's segment keeps the invariant |
| Tarjan.BlackenKeeps | scripts/engine-module-graph.py:146-146 | leaving a unit on the stack when its low-link is smaller keeps the invariant |
| CycleReport.StronglyConnected | scripts/engine-module-graph.py:130-159 | terminates, and its components are the condensation: two units share one iff each reaches the other, all met units are in exactly one, edges go to components emitted no later |
| CycleReport.EmittedIsCondensation | scripts/engine-module-graph.py:130-159 | the search's invariant at its end is the condensation |
| CycleReport.ReachGoesBack | scripts/engine-module-graph.py:130-159 | components come in reverse topological order: whatever a component reaches was emitted with it or before it |
| CycleReport.ComponentsPartition | scripts/engine-module-graph.py:123-159 | when each edge leads to a unit, as after the clean-up, the components partition exactly the units |
| CycleReport.CleanUp | scripts/engine-module-graph.py:123-126 | an edge is left iff it was counted, leads to another unit, and that unit is known; its count stays |
| CycleReport.CycleMeansCompany | scripts/engine-module-graph.py:123-126 | without self-edges, a unit is on a cycle iff it and some other unit reach each other |
| CycleReport.LargeComponentIsCyclic | scripts/engine-module-graph.py:168-184 | a component has more than one unit iff its units are on a cycle |
| CycleReport.WalkSurvives | scripts/engine-module-graph.py:123-126 | the clean-up takes away no walk among the units, but for its steps in place |
| CycleReport.UnitsInCycles | scripts/engine-module-graph.py:123-184 | the report calls a unit cyclic iff it is a unit and some other unit and it reach each other by walks of the counted references among the units |
| CommentLexer.Lexer.Run | scripts/eval-comments/strip_comments.py:98-100 | lexes every source of both languages to its end, unterminated literals and nested templates included, and collects exactly the comments and tokens of its tiling |
| CommentLexer.Lexer.Scan | scripts/eval-comments/strip_comments.py:103-137 | the recursive scan follows the tiling, which keeps an explicit stack of open templates instead; it stops at the brace that closes its substitution, or at the end of the source |
| CommentLexer.Lexer.TemplateToken | scripts/eval-comments/strip_comments.py:217-234 | a template, with whatever its substitutions nest, is tiled by its chunks, its delimiters and what is inside, and leaves no template open |
| CommentLexer.Lexer.RegexToken | scripts/eval-comments/strip_comments.py:247-268 | a slash in operator position is a regular expression up to its closing slash and flags, or a single token when the line ends first |
| CommentLexer.Lex | scripts/eval-comments/strip_comments.py:271-272 | the comments and tokens of every source are those of its one tiling |
| CommentLexer.TilesEnd | scripts/eval-comments/strip_comments.py:98-268 | the tiling ends: a tile is not empty, or a template is closed |
| CommentLexer.TilesCover | scripts/eval-comments/strip_comments.py:98-268 | the tiles stand back to back from the start of the source to its end |
| CommentLexer.EveryCharacterHasOneTile | scripts/eval-comments/strip_comments.py:98-268 | each character is in exactly one of: skipped whitespace, a comment, a token, a delimiter |
| CommentLexer.CommentsAreOk | scripts/eval-comments/strip_comments.py:98-163 | the comments of every source are strictly ordered and in bounds, start with a slash, and end at a line feed, in a closer, or at the end of the source |
| LexedShapes.EveryTileIsExact | scripts/eval-comments/strip_comments.py:98-268 | each tile of every source is what stands there, by the characters alone: where it starts, what it is, and where it ends, for strings, raw strings, characters, template chunks, regular expressions, words, marks, comments and blanks |
| LexemeEnds.QuoteCloseIsExact | scripts/eval-comments/strip_comments.py:204-215 | a quoted text ends just past the first quote with an even run of backslashes before it inside the literal, or at such a line feed where that ends it, or with the source |
| LexemeEnds.QuoteEndIsUnique | scripts/eval-comments/strip_comments.py:204-215 | there is one such end only |
| LexemeEnds.RawCloseIsExact | scripts/eval-comments/strip_comments.py:171-184 | a raw string ends past the first quote that its hashes follow, or with the source |
| LexemeEnds.ChunkEndIsExact | scripts/eval-comments/strip_comments.py:217-234 | a template chunk ends past the first backtick, or at the first opener of a substitution, that no backslash escapes |
| LexemeEnds.RegexEndIsExact | scripts/eval-comments/strip_comments.py:247-268 | a regular expression ends past the flags after its first slash that is neither escaped nor in a class; it is none when the line ends first |
| LexemeEnds.NestedCommentIsExact | scripts/eval-comments/strip_comments.py:150-163 | whatever nests in it, a Rust comment ends at its own closer |
| LexedShapes.RustStringIsExact | scripts/eval-comments/strip_comments.py:165-170 | a prefixed Rust string starts iff no word runs into it and its opener is plain, or raw and at most 260 characters long |
| WrittenSources.QuotedIsOneToken | scripts/eval-comments/strip_comments.py:197-215 | any text, written with quotes, backslashes and line feeds escaped, is one string token wherever code stands, comment marks in it included |
| WrittenSources.WrittenIsRead | scripts/eval-comments/strip_comments.py:98-268 | a source written from names, literals, marks and comments, a line each, is read as just those, in both languages |
| WrittenSources.NotesAreNoTokens | scripts/eval-comments/strip_comments.py:98-273 | and has the tokens of the same source without its comments |
| TemplateSources.WrittenCodeIsLexed | scripts/eval-comments/strip_comments.py:98-234 | TypeScript code with braces and templates nested in one another to any depth is read as written: its tokens, chunk by chunk, and its comments |
| Lexemes.WindowOpenerIsOpener | scripts/eval-comments/strip_comments.py:165-182 | the assertion that a Rust string opener matches never fails, though the test before it sees only a window of the source |
| Lexemes.NestedCommentIsSkipped | scripts/eval-comments/strip_comments.py:150-163 | closing several levels is closing the inner ones first: a nested comment is skipped whole |
| Lexemes.FlatCommentEndsAtFirstCloser | scripts/eval-comments/strip_comments.py:150-163 | without nesting, a comment ends at the first closer |
| Lexemes.BlockCloseEndsInSlash | scripts/eval-comments/strip_comments.py:150-163 | a block comment runs to the end of the source or ends in a slash |
| CommentStripper.CommentBlocks | scripts/eval-comments/strip_comments.py:298-317 | the loop gathers the blocks |
| CommentStripper.BlocksAreGrouping | scripts/eval-comments/strip_comments.py:298-317 | the blocks cut the comments exactly where one does not join the one before it, and lose none |
| CommentStripper.CutFor | scripts/eval-comments/strip_comments.py:353-371 | computes the cut of a comment |
| CommentStripper.CutIsCommentAndSpace | scripts/eval-comments/strip_comments.py:353-371 | a cut covers its comment and beyond it only whitespace, and leaves only whitespace |
| CommentStripper.CutsAreApart | scripts/eval-comments/strip_comments.py:353-371 | the cuts of two comments in order never overlap |
| CommentStripper.CutsAreOrdered | scripts/eval-comments/strip_comments.py:336-350 | all cuts of the chosen comments are in bounds, ordered and disjoint |
| CommentStripper.OrderedSortsToReverse | scripts/eval-comments/strip_comments.py:348-349 | sorting ordered cuts backwards reverses them |
| CommentStripper.SpliceBackwards | scripts/eval-comments/strip_comments.py:347-350 | the back-to-front splice equals one deletion pass from the left |
| CommentStripper.SpliceLosesOnlyComments | scripts/eval-comments/strip_comments.py:336-350 | the non-whitespace characters of the output are those of the source outside the removed comments, in order |
| CommentStripper.ChosenAreOk | scripts/eval-comments/strip_comments.py:336-346 | the removed comments are comments of the source, in their order |
| CommentStripper.CollectCuts | scripts/eval-comments/strip_comments.py:338-346 | the cuts and removed texts are those of the blocks that the mode selects and no directive protects |
| CommentStripper.Strip | scripts/eval-comments/strip_comments.py:336-350 | end to end: from the source to the output that loses nothing but the selected comments and whitespace |
| StripMeaning.GoneExactly | scripts/eval-comments/strip_comments.py:320-346 | a comment goes iff it is in a block none of whose comments matches a directive, and in the justifying mode the block's text matches |
| StripMeaning.BlockTextGrows | scripts/eval-comments/strip_comments.py:320-322 | a block's text is its comments' texts, a line each |
| StripMeaning.JoinsIsExact | scripts/eval-comments/strip_comments.py:298-317 | a comment continues a block iff it is a line comment alone on the line right after the one before, and that one is alone too or starts as far in |
| StripMeaning.CutIsExact | scripts/eval-comments/strip_comments.py:353-371 | a comment alone on its lines goes with them and their line feed; one at a line's end goes with the blanks before it; any other goes as it stands, but for a space between two words |
| StripMeaning.StripUnwritesNotes | scripts/eval-comments/strip_comments.py:336-350 | stripping a source written line by line gives what would have been written without the comments, character for character |
| CommentStripper.WordsStayApartExactly | scripts/eval-comments/strip_comments.py:366-371 | for a word of the lexer, removed comments that touch it and each other, and whatever follows or is removed around them: what the output is there, and that the word keeps its end iff what follows continues no word, or there is one comment, no `$` before it and none after it |
| CommentStripper.TwoCommentsFuse | scripts/eval-comments/strip_comments.py:366-371 | lexed and stripped, `a/**//**/b` becomes `ab` |
| CommentStripper.DollarWordsFuse | scripts/eval-comments/strip_comments.py:366-371 | lexed and stripped, `a$/**/b` becomes `a$b`: the test for a gap knows no `$`, the lexer's words do |
| CommentStripper.DollarIsJoined | scripts/eval-comments/strip_comments.py:366-371 | lexed and stripped, `a/**/$b` becomes `a$b`: the dollar sign, a token of its own before, ends up inside a word |
| BlockMarkers.OpenerIsExact | scripts/lib/codegen_blocks.py:12-30 | the marker search finds an opening iff the comment opener, whitespace and the tag stand there |
| BlockMarkers.ClassesAreExact | scripts/lib/codegen_blocks.py:12-30 | the patterns' character classes, by code |
| BlockMarkers.TokenAfterText | scripts/lib/codegen_blocks.py:12-30 | the first token after text without a marker is the marker that ends the text |
| BlockMarkers.BeforeTokenIsPlain | scripts/lib/codegen_blocks.py:12-30 | no marker opens before the first token found |
| BlockMarkers.AcceptedFragmentIsPlain | scripts/lib/codegen_blocks.py:66-73 | a fragment without a comment opener opens no marker |
| GeneratedBlocks.Spans | scripts/lib/codegen_blocks.py:12-30 | the loop answers the spans of the scan, or its error |
| GeneratedBlocks.SpansOfPrinted | scripts/lib/codegen_blocks.py:12-30 | a printed document is read back as exactly its blocks |
| GeneratedBlocks.Unparse | scripts/lib/codegen_blocks.py:12-30 | a scan that succeeds has read text, then well-formed blocks, to the end |
| GeneratedBlocks.SpansAcceptsExactlyWellFormed | scripts/lib/codegen_blocks.py:12-30 | a document is accepted iff it is text with one block per expected name and no other marker |
| GeneratedBlocks.Splice | scripts/lib/codegen_blocks.py:33-38 | rewriting the spans from the right equals one pass from the left |
| GeneratedBlocks.SpliceRefills | scripts/lib/codegen_blocks.py:33-38 | splicing changes exactly the bodies: every byte outside the blocks stays |
| GeneratedBlocks.SpliceFailsOtherwise | scripts/lib/codegen_blocks.py:33-38 | splicing fails iff the document is not well formed for the names |
| GeneratedBlocks.Check | scripts/lib/codegen_blocks.py:41-44 | answers whether the document is accepted and each body is its fragment |
| GeneratedBlocks.CheckedMeans | scripts/lib/codegen_blocks.py:41-44 | a well-formed document passes iff each block's body is its fragment |
| GeneratedBlocks.SpliceThenCheck | scripts/lib/codegen_blocks.py:33-44 | what was spliced passes the check iff every fragment opens no marker |
| GeneratedBlocks.SpliceTwice | scripts/lib/codegen_blocks.py:33-38 | a second splice over the same names forgets the first; with the same fragments it changes nothing |
| GeneratedBlocks.CheckAgreesWithSplice | scripts/lib/codegen_blocks.py:33-44 | a document passes the check iff splicing leaves it as it is |
| SchedulerSafety.HeldOnceKept | scripts/eval-comments/harness.py:810-925 | no step puts a run in two of: the two queues and the slots |
| SchedulerSafety.StepKeepsInv | scripts/eval-comments/harness.py:810-944 | each step of a slot, the watchdog or the window's end keeps the invariant on places, disk states, errors and starts |
| SchedulerSafety.CutRunsComeFirst | scripts/eval-comments/harness.py:763-780 | a new process queues runs that were cut more often first |
| SchedulerSafety.OrderIsStable | scripts/eval-comments/harness.py:769-769 | runs that were cut equally often keep their order |
| SchedulerSafety.SessionsAreExact | scripts/eval-comments/harness.py:763-780 | the session queue holds each run whose state asks for a session once, and nothing else |
| SchedulerSafety.RestartQueuesUnfinished | scripts/eval-comments/harness.py:763-780 | a new process queues a run iff it is unfinished, exactly once |
| SchedulerSafety.EveryStateIsSafe | scripts/eval-comments/harness.py:750-944 | in every interleaving, with a crash and restart at any step, the invariant holds and a restart would take up every unfinished run exactly once |
| SchedulerHistory.DiskTellsTheHistory | scripts/eval-comments/harness.py:750-944 | along every history, restarts included, a run's cuts and errors on disk are its first ones and those that happened since, and its state is the one written last |
| SchedulerHistory.SessionIsRecorded | scripts/eval-comments/harness.py:874-925 | from the end of a session to its follow-up, amid all other steps: the window's cut is asked first, then a kill for memory, then the cap; that is written; and just a first memory kill is queued again, just a finished or timed-out run for grading |
| SchedulerHistory.KilledExactly | scripts/eval-comments/harness.py:917-944 | a run counts as killed for memory exactly from the watchdog's kill to the end of its process |
| SchedulerHistory.StartedAtMostTwice | scripts/eval-comments/harness.py:844-872 | a process starts no run more than twice |
| SchedulerHistory.NothingIsLost | scripts/eval-comments/harness.py:810-925 | an unfinished run that is in no queue and no slot was given up in this process: by an error, the window's end, a cut, a second memory kill, or its grading |
| SchedulerHistory.CutIsRemembered | scripts/eval-comments/harness.py:822-824 | once the window has cut a run, in whatever process, its next launch needs 48 minutes |
| SchedulerHistory.NoSecondCutExactly | scripts/eval-comments/harness.py:822-915 | over all histories with a cut in them, the run is not cut again exactly when sandbox and clock gap together take at most 30 s |
| SchedulerSafety.FinalStatusIsKept | scripts/eval-comments/harness.py:844-872 | a failed run stays failed, and a graded one stays graded unless the process regrades |
| RunScheduler.Scheduler.NextItem | scripts/eval-comments/harness.py:810-820 | takes the first run to grade when one fits, else the first session that fits the window, else nothing fits; each test reads the clock anew |
| RunScheduler.Scheduler.ReturnToQueue | scripts/eval-comments/harness.py:826-872 | a launch the window stops goes back to the front of its queue |
| RunScheduler.Scheduler.StartSession | scripts/eval-comments/harness.py:874-896 | marks the run as running and keeps the invariant |
| RunScheduler.Scheduler.EndSession | scripts/eval-comments/harness.py:898-925 | the session's outcome, in the order in which the code asks: cut, killed for memory, timed out, finished |
| RunScheduler.Scheduler.RecordOutcome | scripts/eval-comments/harness.py:844-872 | writes the outcome to disk and keeps the invariant |
| RunScheduler.Scheduler.QueueFollowUp | scripts/eval-comments/harness.py:844-872 | queues the second attempt after a first memory kill, or the grading |
| RunScheduler.Scheduler.FinishGrade | scripts/eval-comments/harness.py:847-850 | writes the run as graded and frees the slot, as one step of the whole |
| RunScheduler.Scheduler.RecordError | scripts/eval-comments/harness.py:844-872 | counts the error, and fails the run at the limit or returns it to the step that failed |
| RunScheduler.Enqueue | scripts/eval-comments/harness.py:763-780 | the constructor's loop fills both queues as specified |
| SchedulerTiming.PollSession | scripts/eval-comments/harness.py:898-915 | the poll loop's outcome, the cap asked before the window |
| SchedulerTiming.OutcomeIsExact | scripts/eval-comments/harness.py:898-910 | the first turn that ends the session decides how, in numbers |
| SchedulerTiming.WhatFits | scripts/eval-comments/harness.py:451-455 | how much of the window a grading, a first session and one after a cut need |
| SchedulerTiming.EnoughRoomIsNeverCut | scripts/eval-comments/harness.py:822-872 | a run that was cut before is not cut when sandbox and clock gap fit 30 seconds |
| SchedulerTiming.NeverCutAgainExactly | scripts/eval-comments/harness.py:822-915 | and that bound is exact |
| SchedulerTiming.Reserve | scripts/eval-comments/harness.py:852-856 | a launch pauses until one stagger after the last reservation, and leaves the next of the reservations that are shown to be apart |
| SchedulerTiming.LaunchesAreStaggered | scripts/eval-comments/harness.py:852-856 | any two reservations are as many stagger intervals apart as there are launches between |
| SchedulerTiming.ReservationsAreTight | scripts/eval-comments/harness.py:852-856 | and no later than it must be: when it is asked for, or 45 s after the one before |
| Choices.CombinationsComplete | scripts/eval-comments/harness.py:1358-1360 | a choice is enumerated iff it takes that many of the positions |
| Choices.CombinationsDistinct | scripts/eval-comments/harness.py:1358-1360 | no choice is enumerated twice |
| Choices.CombinationsCount | scripts/eval-comments/harness.py:1358-1360 | the number of choices is n! / (k! (n - k)!) |
| Choices.ProductComplete | scripts/eval-comments/harness.py:1363-1365 | an assignment is enumerated iff it picks one labelling of each group |
| Choices.ProductDistinct | scripts/eval-comments/harness.py:1363-1365 | no assignment is enumerated twice |
| PermutationTest.GroupByTask | scripts/eval-comments/harness.py:1341-1346 | each task with a sample appears once, with all its samples in order |
| PermutationTest.SamplesAreRows | scripts/eval-comments/harness.py:1341-1346 | a task's samples are its rows with a measure and one of the two arms, in order, marked when of the second |
| PermutationTest.AssignmentsComplete | scripts/eval-comments/harness.py:1354-1363 | the assignments are exactly the relabellings that keep each group's values and number of second-arm rows |
| PermutationTest.AssignmentsCount | scripts/eval-comments/harness.py:1362-1367 | the total is the product of the binomial coefficients |
| PermutationTest.CountIsSize | scripts/eval-comments/harness.py:1362-1366 | counting through a list without duplicates gives the sizes of the two sets |
| PermutationTest.PValueIsInRange | scripts/eval-comments/harness.py:1339-1367 | the p-value exists and lies in [1/total, 1] |
| PermutationTest.PermutationP | scripts/eval-comments/harness.py:1339-1367 | never answers None; answers the share of all relabellings that reach the observed difference |
| PermutationTest.NothingToShuffle | scripts/eval-comments/harness.py:1339-1367 | when no task mixes the arms the answer is 1 |
| PermutationTest.ArmsMayBeExchanged | scripts/eval-comments/harness.py:1348-1367 | exchanging the two arms leaves the p-value as it is |
| PermutationTest.DistanceOfConstants | scripts/eval-comments/harness.py:1348-1351 | the statistic of two constant arms is the distance of the constants |
| CrashWatchdog.StepProjects | crates/lucidos-app/src/crash_watchdog.rs:45-86 | a step on the shared maps is, for one window, its own step or nothing |
| CrashWatchdog.VerdictIsExact | crates/lucidos-app/src/crash_watchdog.rs:112-178 | after any events, a look reloads a window iff it is on screen and silent for more than 60·2^min(k,5) s, k being the futile reloads up to its last one; the verdict's other parts likewise |
| CrashWatchdog.BackoffOutlivesTheBeat | crates/lucidos-app/src/crash_watchdog.rs:155-178 | a beat gives back the fast recovery iff no reload before it was futile |
| CrashWatchdog.WindowsDoNotInterfere | crates/lucidos-app/src/crash_watchdog.rs:142-247 | in any interleaving a window gets the verdicts it would get alone |
| CrashWatchdog.NoReloadWithinTimeout | crates/lucidos-app/src/crash_watchdog.rs:88-178 | no reload comes within the timeout of a window's last sign of life |
| CrashWatchdog.ParkGivesAFreshStart | crates/lucidos-app/src/crash_watchdog.rs:224-238 | a parked window is not reloaded, forgets its backoff, and is not reloaded within the timeout after the park |
| CrashWatchdog.SilentReloadsWait | crates/lucidos-app/src/crash_watchdog.rs:142-178 | the n-th reload of a silent window comes later than the sum of the thresholds before it |
| CrashWatchdog.WaitedIsClosedForm | crates/lucidos-app/src/crash_watchdog.rs:88-120 | that sum in closed form |
| CrashWatchdog.NthReloadOfASilentWindow | crates/lucidos-app/src/crash_watchdog.rs:88-178 | the n-th reload comes more than 60·2^(n-1) s after the clock started for n ≤ 7, and 1920 s more for each one after |
| CrashWatchdog.SilentReloadsCome | crates/lucidos-app/src/crash_watchdog.rs:142-247 | the n-th reload of a silent window comes by the sum of the thresholds, one gap between looks for each reload, and the pauses before it |
| CrashWatchdog.NthReloadComes | crates/lucidos-app/src/crash_watchdog.rs:88-247 | the same with the sum in closed form; the gap is 15 s and what a tick takes |
| CrashWatchdog.Monitor.JudgeOne | crates/lucidos-app/src/crash_watchdog.rs:210-238 | one window's part of a tick is its own look and clock reset, whatever beats come between, and judges no other window |
| CrashWatchdog.Monitor.Sweep | crates/lucidos-app/src/crash_watchdog.rs:239-247 | forgets each label it read that is not live, one lock at a time, amid heartbeats |
| CrashWatchdog.SweptAmidHeartbeats | crates/lucidos-app/src/crash_watchdog.rs:239-247 | in any interleaving of a sweep with heartbeats, what is left is the live windows and those that beat and were not forgotten after |
| CrashWatchdog.OnlyLateBeatsStay | crates/lucidos-app/src/crash_watchdog.rs:239-247 | exactly the live windows are left iff every one of the late ones is live |
| CrashWatchdog.RunProjects | crates/lucidos-app/src/crash_watchdog.rs:142-247 | after any run, a window's part of both maps is what it would be alone |
| CrashWatchdog.Monitor.Tick | crates/lucidos-app/src/crash_watchdog.rs:209-247 | with heartbeats arriving before every lock it takes: a tick judges each app window once, each as it would be alone; afterwards the watchdogs are those of the live windows, and the beats those and the ones that came late |
| WindowTarget.WorkspaceUrlReadsBack | crates/lucidos-app/src/window_target.rs:81-114 | the URL composed for a workspace is read back as that workspace |
| WindowTarget.WorkspaceIsExact | crates/lucidos-app/src/window_target.rs:81-98 | a URL serves a workspace iff it is one of a gateway whose first segment is that route |
| WindowTarget.SlugIsExact | crates/lucidos-app/src/window_target.rs:18-26 | a slug is runs of lower-case letters and digits joined by single hyphens |
| WindowTarget.RouteIsExact | crates/lucidos-app/src/window_target.rs:32-46 | a route is a slug, or a slug and a gateway's name with an at sign between |
| WindowSession.RestorePlanIsValid | crates/lucidos-app/src/window_session.rs:357-409 | whatever the record holds, restored entries have real workspaces, restorable and distinct labels, and `main` first |
| WindowSession.RestorePlanIsExact | crates/lucidos-app/src/window_session.rs:380-405 | every entry on a workspace comes back, once and in order, `main` first; under its name if it may have it and no earlier entry does; at its own frame, else its workspace's |
| WindowSession.RestorableIsExact | crates/lucidos-app/src/window_session.rs:380-395 | a name may be given again iff it is `main`, or the prefix of a window and 32 hexadecimal digits |
| WindowPlans.CollectOwed | crates/lucidos-app/src/desktop.rs:1760-1785 | the loop over the record collects the entries that no live window stands for |
| WindowPlans.PlanReopen | crates/lucidos-app/src/desktop.rs:1729-1810 | computes the reopen plan |
| WindowPlans.Desk.ReopenClient | crates/lucidos-app/src/app_window.rs:1091-1146 | applies it: `main` pointed, windows shown, windows built as far as they can be, a spare one, if it can be made, when there is neither one to front nor one to build, and the planned one brought to the front |
| WindowPlans.AllMadeReopens | crates/lucidos-app/src/app_window.rs:1091-1146 | when every window can be made, that is the reopen whose results are below |
| WindowPlans.Desk.RestoreExtraWindows | crates/lucidos-app/src/app_window.rs:884-897 | builds each planned window under its own label, or a fresh one when that is taken; one that cannot be made is skipped |
| ReopenTheorems.ShowIsWhatIsHidden | crates/lucidos-app/src/desktop.rs:1729-1760 | a reopen shows exactly the hidden windows |
| ReopenTheorems.OrderedIsInOrder | crates/lucidos-app/src/desktop.rs:1734-1744 | in the code's order: `main`, then by name |
| ReopenTheorems.PlanFollowsTheRecord | crates/lucidos-app/src/desktop.rs:1761-1810 | each window to build is for an owed entry, on its workspace, at its frame and under its name; `main` is pointed where an entry it may take stood, with that frame |
| ReopenTheorems.SplashIsLeftAlone | crates/lucidos-app/src/desktop.rs:1746-1760 | while `main` is on the splash nothing is built and nothing navigated |
| ReopenTheorems.AdriftMainIsPointed | crates/lucidos-app/src/desktop.rs:1782-1797 | past boot, a `main` on no workspace goes to its recorded one, or else to that of an unnamed owed entry |
| ReopenTheorems.SettledUnlessMainIsGone | crates/lucidos-app/src/desktop.rs:1729-1810 | after a reopen an entry is still owed iff it is recorded as `main` and no `main` is alive |
| ReopenTheorems.ReopenIsComplete | crates/lucidos-app/src/desktop.rs:1729-1810 | past boot with a live `main`, each recorded label is worn and each unlabelled entry's workspace is served |
| ReopenTheorems.ReopenKeepsWindows | crates/lucidos-app/src/app_window.rs:1091-1146 | no window is closed, hidden or navigated, but for a `main` that is on no workspace |
| ReopenTheorems.BootingStays | crates/lucidos-app/src/desktop.rs:1729-1760 | a `main` on the splash stays there |
| ReopenTheorems.PastBootStays | crates/lucidos-app/src/desktop.rs:1729-1810 | after boot, `main` is left on no workspace only when the record had none for it |
| ReopenTheorems.FrontIsOnScreen | crates/lucidos-app/src/desktop.rs:1799-1802 | the window brought to the front is `main`, else the first hidden one, else none; it was alive, and is visible afterwards |
| ReopenTheorems.SecondReopen | crates/lucidos-app/src/desktop.rs:1729-1810 | a second reopen shows and navigates nothing, and builds nothing iff `main` is alive or the record names none |
| ReopenTheorems.ReopenTwice | crates/lucidos-app/src/app_window.rs:1091-1146 | the whole reopen, twice: the second leaves all windows as they are iff a `main` is alive, and else there are more than before |
| ReopenTheorems.MainIsBuiltAgain | crates/lucidos-app/src/desktop.rs:1729-1810 | with no window alive and one entry recorded as `main`, both the first and the second reopen build a window for it |
| LaunchPlans.PlanLaunch | crates/lucidos-app/src/desktop.rs:1618-1668 | computes the launch plan |
| LaunchPlans.LaunchConservesTheSession | crates/lucidos-app/src/desktop.rs:1581-1668 | each entry but the absorbed one becomes exactly one extra, in order, with its frame unless `main` wears it; no extra is called `main` |
| LaunchPlans.AbsorbedIsTheOneMainStandsFor | crates/lucidos-app/src/desktop.rs:1590-1668 | a tap wins `main`; the absorbed entry is on the workspace `main` goes to, and with a tap the first such; without one, no entry is on a tapped workspace |
| LaunchPlans.MainComesBack | crates/lucidos-app/src/desktop.rs:1618-1668 | without a tap, a recorded `main` returns to its workspace |
| ExtendedRegex.TextMatches | crates/lucidos-app/src/desktop.rs:2697-2713 | literal text in a pattern matches where that text stands |
| RunningPattern.EscapedReadsBack | crates/lucidos-app/src/desktop.rs:2722-2734 | escaped text, read as an extended regular expression, is that text |
| RunningPattern.PatternReadsBack | crates/lucidos-app/src/desktop.rs:2697-2713 | the pattern is read as: start, one of the executables, the arguments, end |
| RunningPattern.PatternIsExact | crates/lucidos-app/src/desktop.rs:2697-2713 | the pattern finds a command line iff it is one of the executables followed by each argument after one space |
| ShellWords.QuotedIsOneWord | crates/lucidos-app/src/desktop.rs:2741-2743 | quoted text is one shell word, equal to the text, none of it expanded |
| ShellWords.ScriptSplits | crates/lucidos-app/src/desktop.rs:2634-2682 | a script of plain pieces and separated quoted texts splits into the words of its pieces |
| RelaunchWatcher.EveryQuotedTextIsOneWord | crates/lucidos-app/src/desktop.rs:2634-2682 | in the relaunch script, whatever names it gets, each quoted text is one word of its own |
| RelaunchWatcher.ProbeFindsWhatIsLaunched | crates/lucidos-app/src/desktop.rs:2634-2713 | the probe's pattern is an argument of the script and finds exactly the command lines of what is launched |
| ServiceTeardown.DedupOfGrouped | crates/lucidos-app/src/desktop.rs:468-510 | dropping equal neighbours removes all duplicates when equal ids stand together |
| ServiceTeardown.StoppedAreSignalled | crates/lucidos-app/src/desktop.rs:677-709 | the engines recorded are exactly the lock holders and waiters that are alive and not provably another program |
| ServiceTeardown.StoppedIdsAreGrouped | crates/lucidos-app/src/desktop.rs:677-709 | the ids come workspace by workspace, so equal ones are neighbours |
| ServiceTeardown.RecordIsRight | crates/lucidos-app/src/desktop.rs:1064-1093 | a declared quit survives; otherwise the record holds each stopped workspace once and no other |
| ServiceTeardown.Service.WaitForEngines | crates/lucidos-app/src/desktop.rs:2804-2881 | waits at most the timeout and one poll; the answer is the engines no probe saw gone, each of them probed at the very end |
| ServiceTeardown.Service.FinishStopping | crates/lucidos-app/src/desktop.rs:549-577 | its log is the probes of the wait, the kills, and the probes of the grace; it kills exactly the engines not seen gone in time that still run the engine when the wait is over, not before |
| ServiceTeardown.EveryEngineIsAccounted | crates/lucidos-app/src/desktop.rs:549-577 | each engine was seen gone; or was killed, and was then seen gone or had its grace; or was there and did not provably run the engine |
| ServiceTeardown.OnlyEnginesAreKilled | crates/lucidos-app/src/desktop.rs:549-577 | whatever is killed was signalled, is alive, runs the engine, and had the whole timeout |
| ServiceTeardown.SignalledExactly | crates/lucidos-app/src/desktop.rs:677-709 | a pid gets the stop signal iff it is some workspace's lock holder or waiting successor, it answers, and it is not provably another program |
| ServiceTeardown.Service.StopWorkspaceEngines | crates/lucidos-app/src/desktop.rs:677-709 | sends those signals, and records the engines of the workspaces whose names can be read |
| ServiceTeardown.Service.Shutdown | crates/lucidos-app/src/desktop.rs:468-510 | what it does, event by event: the signals, the end of every engine as above within the budget, then the database's stop; the record is the one above |
| ServiceTeardown.DatabaseStopsLast | crates/lucidos-app/src/desktop.rs:468-510 | nothing of a teardown follows the database's stop; by then each recorded engine was seen gone, or was killed and had its grace, or was there and did not provably run the engine when the whole wait was over |
| ServiceTeardown.KilledOnlyAfterTheBudget | crates/lucidos-app/src/desktop.rs:468-577 | no engine is killed before 17 s of the teardown are over |
| ServiceTeardown.SignalledIsWaitedForExactly | crates/lucidos-app/src/desktop.rs:677-709 | a signalled pid is ever asked after iff some workspace that names it has a name that can be read; then it is accounted for as above, otherwise it is not killed either |
| ServiceTeardown.UnreadableIsLeftRunning | crates/lucidos-app/src/desktop.rs:692-704 | one workspace with an unreadable name: its engine is signalled, and the database stops at that moment while the engine runs |
| ServiceTeardown.PostgresStopsInTime | crates/lucidos-app/src/desktop.rs:468-539 | with at most 17 s of work before the wait, the database's stop begins within 18.9 s of the SIGTERM, before launchd's 20 s |
| ServiceTeardown.StopOnSigterm | crates/lucidos-app/src/desktop.rs:2014-2031 | the same teardown, from the SIGTERM through the supervise loop, its database stop less than 18.9 s after the SIGTERM |
| BootLog.ParseServiceBoots | crates/lucidos-app/src/desktop.rs:397-427 | counts the starts in the text of the log; reports the first failure of the last start that failed, or none iff no start failed |
| BootLog.FailureIsExact | crates/lucidos-app/src/desktop.rs:404-422 | a line is a failure with a reason iff it holds no start's marker, and the reason, not blank, stands between white space after its first failure marker |
| BootLog.TrimIsUnique | crates/lucidos-app/src/desktop.rs:415-417 | the trimmed reason is the only text between spaces that no space starts or ends |
| BootLog.WrittenFailureReadsBack | crates/lucidos-app/src/desktop.rs:1931-1934 | the line a failed start writes is read as that failure, with its reason trimmed, unless the reason holds a start's marker or is blank |
| BootLog.WrittenStartReadsBack | crates/lucidos-app/src/desktop.rs:1943-1946 | the line that every start writes is read as a start |
| BootLog.WrittenLinesReadBack | crates/lucidos-app/src/desktop.rs:404-404 | texts written one a line are read as those lines |
| BootLog.ReturnIsDropped | crates/lucidos-app/src/desktop.rs:404-404 | a carriage return before a line's end is no part of it |
| BootLog.ReportGrows | crates/lucidos-app/src/desktop.rs:397-427 | a line changes the reason iff it is the first failure since a start |
| WorkerRoutes.RoutedIsOwnOrigin | crates/lucidos-app/public/sw.js:162-172 | only GET requests to just this origin are taken over, though the test on the origin is a prefix without a slash |
| WorkerRoutes.ScopeDoesNotMatter | crates/lucidos-app/public/sw.js:19-22 | a request inside a workspace's scope is routed as it would be at the root |
| WorkerRoutes.RouteIsExact | crates/lucidos-app/public/sw.js:162-237 | how each request inside a scope is treated, by its path below the scope |
| WorkerRoutes.ClashIsTheAssetsSlug | crates/lucidos-app/public/sw.js:213-236 | one workspace's shell key is another's bundle URL iff the first is called "assets" |
| WorkerRoutes.OneWorkerIsApart | crates/lucidos-app/public/sw.js:213-236 | a worker's own shell key is none of its bundle URLs |
| WholeBody.ReadWhole | crates/lucidos-app/public/sw.js:268-307 | reads a body chunk by chunk to its end; breaks, stalls and wrong lengths throw |
| WholeBody.FetchWhole | crates/lucidos-app/public/sw.js:246-266 | makes at most three tries, only later ones past the HTTP cache, stops at the first whole one |
| WholeBody.DrainIsWhole | crates/lucidos-app/public/sw.js:279-288 | the bytes read are all chunks up to the end of the stream |
| WholeBody.WholeIsExact | crates/lucidos-app/public/sw.js:268-307 | one try comes through iff it is answered, its stream ends, and no positive unencoded length contradicts its bytes; and what is passed on |
| WholeBody.GoodMeansComplete | crates/lucidos-app/public/sw.js:246-307 | a good result is one of the server's answers, whole, of the declared length whenever a positive one came unencoded |
| CacheSafety.StepKeepsInv | crates/lucidos-app/public/sw.js:53-93 | each step of each handler of each worker keeps what the caches, the tasks in flight and the pages hold in order |
| CacheSafety.EveryRunIsSafe | crates/lucidos-app/public/sw.js:53-440 | in every run: shell keys hold unredirected successes that are no pairing screen, bundle URLs hold whole non-HTML successes the server gave for them in at most three tries, blob URLs successes it gave for them |
| CacheSafety.WhatIsServedIsFit | crates/lucidos-app/public/sw.js:349-440 | whatever a page got from a cache was a success, and a shell from the cache was a shell |
| CacheUse.NavigationGetsTheShell | crates/lucidos-app/public/sw.js:382-440 | in every run: a navigation that the network leaves without an answer to show goes on to fall back, and is given the shell that the cache it opened holds then, as it does if it held one when opened; with none it gets what the network said |
| CacheUse.NavigationAsks | crates/lucidos-app/public/sw.js:382-434 | which answers are shown, as what, and which become the shell |
| CacheUse.OnlineThenOffline | crates/lucidos-app/public/sw.js:382-440 | a navigation's answer that was stored gives every later one over the same cache a shell when the network fails |
| CacheUse.CachedIsServed | crates/lucidos-app/public/sw.js:349-361 | a bundle or blob that the cache holds when it is opened is answered from it, with no request to the network |
| CacheUse.LookupIsCacheFirst | crates/lucidos-app/public/sw.js:349-361 | and any other goes on to the network |
| CacheUse.MissAsksTheNetwork | crates/lucidos-app/public/sw.js:349-361 | what a miss brings: the first whole answer of three, or for a blob the first of two; stored just when it is a success, and for a bundle no HTML |
| CacheUse.StoringStores | crates/lucidos-app/public/sw.js:349-361 | a write leaves the answer under its key, its body read to the end, or changes nothing |
| CacheUse.InstallWarmsTheCache | crates/lucidos-app/public/sw.js:53-79 | a built worker's install goes on to store the shell |
| CacheUse.RequestsStartHandlers | crates/lucidos-app/public/sw.js:162-237 | which requests start which handler |
| CacheUse.HandlersOpenTheirCache | crates/lucidos-app/public/sw.js:349-383 | a lookup or a navigation opens its cache, and makes it when there is none of its name |
| CacheUse.TasksStay | crates/lucidos-app/public/sw.js:53-440 | no handler is dropped before it runs on |
| CacheUse.EntriesStay | crates/lucidos-app/public/sw.js:53-440 | no entry of a cache is taken out |
| CacheUse.OnlyOthersArePurged | crates/lucidos-app/public/sw.js:80-93 | a cache's name goes only by the purge of a worker that does not keep it |
| CacheSafety.ClashPutsHtmlUnderABundle | crates/lucidos-app/public/sw.js:53-79 | when keys clash, an install puts an HTML document under a bundle URL |
| CacheSafety.OnlyKeptAndReopenedRemain | crates/lucidos-app/public/sw.js:80-93 | in every run after a worker has listed the caches, of whatever builds: when no purge is running, a cache other than its two was opened again since |
| CacheSafety.ReopenedAreOwn | crates/lucidos-app/public/sw.js:53-93 | what is opened again is the blob cache or the shell cache of a worker's build |
| CacheSafety.OneBuildKeepsTwoCaches | crates/lucidos-app/public/sw.js:80-93 | so with one build at work nothing but its two caches is left |
| CacheSafety.AnOldBuildLeavesItsCache | crates/lucidos-app/public/sw.js:80-93 | with two builds a run of five steps ends with no purge running and the old shell cache in place |
| BundleFiles.OriginPathLeadsToLib | scripts/lib/stage_runtime_linux.py:77-79 | the search path written into an object leads from the object to the bundle's libraries |
| BundleFiles.OriginPathIsRelocatable | scripts/lib/stage_runtime_linux.py:77-79 | it does not depend on where the bundle stands |
| BundleFiles.CheckedClosure | scripts/lib/stage_runtime_linux.py:96-111 | when the check passes, everything the server needs along any chain is inside the root with the server's ELF identity |
| BundleFiles.CheckedIsExact | scripts/lib/stage_runtime_linux.py:49-111 | what the check accepts, spelled out |
| ElfBundle.Bundler.Objects | scripts/lib/stage_runtime_linux.py:49-61 | the walk ends with exactly the ELF files of the tree, at a link that leaves it or leads nowhere, or without the server |
| ElfBundle.Bundler.Check | scripts/lib/stage_runtime_linux.py:96-111 | passes iff the bundle is closed |
| ElfBundle.Bundler.FindSource | scripts/lib/stage_runtime_linux.py:146-174 | the first candidate of the right kind; or that all can be read and none has it; or that one before any that fits cannot be read |
| ElfBundle.Bundler.Bundle | scripts/lib/stage_runtime_linux.py:146-174 | the worklist ends on any graph, cyclic or not. It fails only for a fault it names and that is there: in the tree, in a wanted object, or in a name a wanted object needs. Otherwise it leaves `seen` closed under non-glibc names, holding only what was there or is needed; each new file is a licensed copy of the first library of its name and kind, each old one is as it was but for an ELF's search path; and the check passes |
| ElfBundle.CopyKeeps | scripts/lib/stage_runtime_linux.py:155-170 | copying a library into the root while the worklist runs keeps its invariant |
| ElfBundle.CopyIsHonest | scripts/lib/stage_runtime_linux.py:155-170 | the copy is of the library that was found |
| ElfBundle.PatchKeeps | scripts/lib/stage_runtime_linux.py:170-174 | so does setting an object's search path |
| ElfBundle.DoneIsChecked | scripts/lib/stage_runtime_linux.py:146-174 | with nothing pending, the invariant is the check |

## Left out

- Real I/O and foreign programs (launchctl, `open`, pgrep, pg_ctl, git, cargo, readelf, patchelf, ldconfig, Tauri, the browser): they are state maps or inputs of the model.
- Python's recursion limit, which the module search would reach on a very deep graph.
- Equality of the code tokens before and after stripping: the tool compares them when it runs and refuses the file; it is no theorem, as `TwoCommentsFuse` shows.
- The stripper's two regular expressions for directives and justifying comments, and the character classes of Python strings, are parameters of the model.
- The scheduler's model judging, prompts, reports, diff statistics and process reaping.
- `permutation_p` over floating point: the model computes over real numbers, with the code's tolerance.
- CrashWatchdog.Monitor.Heartbeat: does not model the overflow of the 64-bit heartbeat counter.
- RunningPattern.PatternIsExact: reads a backslash before a character as that character, as section 9.4 of the POSIX.1 Base Definitions does for special characters; an executable with an empty name is read as an empty alternative, which the standard leaves undefined.
- ShellWords.QuotedIsOneWord: the shell model splits words, quotes and operators of single characters; expansions, here-documents and reserved words are not modelled, and the fixed text of the script is only split, not run.
- The login agent's script, whose message line is built differently.
- ServiceTeardown.Service.Shutdown: a probe, a signal and a kill take no time, and the gateway's own stop is part of the work before the engine wait.
- BootLog.ParseServiceBoots: the log's bytes come decoded, and which characters are white space is a parameter.
- Window placement and scale factors; a frame is carried as a value. Fullscreen, the settled latch and dialogs.
- WindowPlans.Desk.ReopenClient: focus and the order of the windows on screen; of those made, none is named as the front.
- WindowPlans.Desk.RestoreExtraWindows: each fresh label is an input, assumed unlike every label in use where the theorems need it; the theorems about a reopen take every build to succeed.
- Push notifications, badges and deep links of the service worker, and the requests it passes through without a cache.
- WholeBody.ReadWhole: the idle timer is an error of the read that was awaited; the bytes of a shell or blob body are not counted, as the code does not count them either.
- CacheSafety.EveryRunIsSafe: asks that no shell key be a bundle URL, which `ClashIsTheAssetsSlug` reduces to the name of a workspace.
- ElfBundle.Bundler.Bundle: the root is a directory; patchelf and copying always succeed once asked; links are followed for whole paths, not for their directories.
