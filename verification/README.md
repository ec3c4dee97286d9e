# Verified models of the repository's tooling algorithms

The repository's `scripts/` hold the gates, bench drivers and deploy tools that run around the
product. This project models the small stateful algorithms inside them in Dafny and proves what
they are for. There is one module per algorithm, one file per module:

| module | what it models |
|---|---|
| `AstDuplication` | the duplicate gate's fingerprint: tokens with names replaced by first-use numbers |
| `LikenessText` | what the two fingerprints keep of a body: names, literals, query text, tags |
| `DuplicateGroups` | the gate's groups of one likeness, and the filter that keeps the outermost |
| `MovableModules` | the memoised, cycle-cutting search for files a shared package could hold |
| `ContractHeritage` | inherited contract members folded through `extends`, and literals attributed to contracts |
| `FrameLedger` | the page's RPC frame ledger: asks, answers, retired sockets, waiters |
| `LcovLines`, `LcovText`, `LcovMerge` | the lcov lines, the printer and parser of whole tracefiles, and the merger |
| `LcovForms`, `LcovRecords`, `LcovCounts` | which lines are taken or refused, what a tracefile parses as or fails with, and what merged counts are |
| `BenchTeardown`, `TeardownRuns` | the durable teardown manifest and its replay; every run of drivers over it, crashes included |
| `StrandingClaims` | what a claim of a run id can do that records nobody, or replaces what is still in use |
| `ClaimRace` | one manifest write taken apart into its file operations, raced by any number of processes |
| `DevboxFixture` | deleting a container application by recorded ids, and durable state only behind its Worker |
| `Deadline` | the silence watchdog |
| `BenchPilot`, `PilotReports` | the stability pilot's report builder and its validator; what a report says of its outcomes |
| `BenchPool` | the bounded pool's interleaved lanes, and the shard partition |
| `InferenceProxy` | the metering proxy with responses in flight |
| `DeployedGraph` | the deployed module graph's worklist |
| `ByteOffsets` | the UTF-16 index to UTF-8 offset table |
| `BloatCensus` | subtree sizes and what each function owns |
| `DeployLive`, `LiveRows` | the throttled live status of a deploy phase; what its file says, read off the events |
| `Sorting`, `Lists`, `Numbers`, `TextLines`, `Wrappers` | what the modules share |

Where the source changes state, a class or a method with loops changes it the same way and is
proved equal to a function of the old state; the properties are then lemmas about that function.
Event-driven and interleaved code is modelled as a step function, and the results are about every
run of it.

Ports are parameters: the file system and the Cloudflare account are maps and sets, a deletion's
report, a resolver's answer and an upstream's response are values handed in, clocks are arguments
of events. Strings compared by the scripts' default sort are ordered character by character, which
is JavaScript's order by code unit on text without surrogate pairs. JavaScript numbers are
unbounded integers, and means are exact quotients.

Where the code and the comments beside it differ, the model follows the code:

- `movableIn`'s comment calls a cycle neutral. With one memo shared by all roots it is not always:
  a file answered while another was still open keeps that answer (`MovableModules.SharedMemoOverReports`).
  Every order of the imports and of the asking reports exactly the movable files if and only if
  the graph has no trap (`MovableModules.ExactIffNoTraps`).
- `writeManifest`'s comment says the first write claims the run id. It does against a running
  owner, but a later run replaces a dead run's manifest under the same id, pending entries
  included (`StrandingClaims.ReusedRunIdStrands`), and two runs can both replace one
  (`ClaimRace.BothReplace`; exactly when claims exclude one another is `ClaimRace.ExcludesIff`).
- `fingerprintOf`'s comment says a renamed copy still matches. In the likeness an intrinsic tag
  takes a number too, so a renaming onto a tag's name can hide a copy
  (`AstDuplication.TagNamedBindingHidesCopy`; exactly when is `AstDuplication.CopyKeepsLikenessIff`).
- `recordApplicationIds` keeps an entry free of repeats only when the listing names no new id
  twice (`DevboxFixture.RecordingKeepsNoRepeats`), and freedom from repeats is exactly what makes
  every removal of known ids durable first (`DevboxFixture.DurableIffNoRepeats`). The account's own
  removal lists the application again, so an id that only this second listing shows is deleted
  without having been written (`DevboxFixture.RunIsDurable`).
- A row's last line can show how its output was cut into chunks: an unfinished line longer than
  what is kept of one shows by its end instead of its start when its newline comes later
  (`DeployLive.CutIsSeen`). For plain text that happens exactly when the start is not the end
  (`DeployLive.ChunksDoNotMatterIff`).
- A manifest's owner may be null where the process cannot be told. Such a claim reads as abandoned
  while its driver works, so it can be followed by a run that strands a resource unless it asks to
  be kept or names nothing (`StrandingClaims.SafeIffAnswerable`).
- `inPool`'s comment promises results in job order. A width below one opens no lane, so nothing
  runs and the result is empty (`BenchPool.EndedPool`).

## Model

| member | source | states |
|---|---|---|
| AstDuplication.Fingerprinter.TakeSlot | scripts/ast-duplication.ts:119-126 | a name already numbered keeps its number; a new one takes the count of names so far, and nothing else changes |
| AstDuplication.Fingerprinter.Visit | scripts/ast-duplication.ts:162-189 | one walk adds to both token sequences, threads one name table through them, and counts every node |
| AstDuplication.FingerprintOf | scripts/ast-duplication.ts:156-197 | the two sequences and the size of a body are those of its children alone, numbered from an empty table |
| AstDuplication.SameNamesInBothModes | scripts/ast-duplication.ts:157-187 | the exact and likeness sequences meet the same names in the same order, so one table serves both |
| AstDuplication.NumbersAreFinal | scripts/ast-duplication.ts:119-126 | every occurrence of a name shows the number it has when the walk ends |
| AstDuplication.NumberIsRank | scripts/ast-duplication.ts:119-126 | a name's number is how many other names came into use before it |
| AstDuplication.ReadBack | scripts/ast-duplication.ts:162-189 | token sequences are self-delimiting: equal ones can only come from trees of one shape, whatever follows them |
| AstDuplication.EqualNumbersPairNames | scripts/ast-duplication.ts:148-187 | equal numbered sequences pair their names one to one |
| AstDuplication.RenamingKeepsNumbers | scripts/ast-duplication.ts:148-187 | a consistent renaming that leaves tag names alone keeps every number |
| AstDuplication.ExactIffRenamedCopy | scripts/ast-duplication.ts:148-197 | two bodies have equal exact sequences if and only if one is the other under a one-to-one renaming with node types and literals unchanged |
| AstDuplication.EqualLikenessIsCopy | scripts/ast-duplication.ts:134-197 | equal likeness sequences pair the bindings one to one and have equal intrinsic tags and query text |
| AstDuplication.RenamedCopyHasEqualLikeness | scripts/ast-duplication.ts:148-197 | renaming bindings and editing literals other than query text keeps the likeness when the renaming fixes tag names |
| AstDuplication.CopyKeepsLikenessIff | scripts/ast-duplication.ts:148-197 | a likeness copy keeps the likeness exactly when each binding's name first comes into use after as many other names as the one it is copied to |
| AstDuplication.TagNamedBindingHidesCopy | scripts/ast-duplication.ts:172-176 | the body `{ <p/>; x; }`, whose likeness changes when `x` is renamed to the tag's name |
| AstDuplication.EqualTokensEqualSize | scripts/ast-duplication.ts:162-189 | bodies of one fingerprint have one size, exact or likeness |
| LikenessText.FirstArgumentShows | scripts/ast-duplication.ts:139-146 | a text handed first to a method, quoted or as a template, shows in the likeness exactly when the method is named `exec`, by a dot or in brackets |
| LikenessText.SecondArgumentHides | scripts/ast-duplication.ts:139-146 | no later argument shows, whatever the method |
| LikenessText.TaggedTextShows | scripts/ast-duplication.ts:139-146 | a tagged template's text always shows |
| LikenessText.PlainTextHides | scripts/ast-duplication.ts:178-184 | a text standing alone does not show in the likeness |
| LikenessText.LeafShows | scripts/ast-duplication.ts:162-184 | in the exact fingerprint the text of the three kinds of literal shows and no name does |
| LikenessText.LowerCaseTagsShow | scripts/ast-duplication.ts:170-176 | of two tags alike in all else the likeness differs exactly when one is in lower case and they are different |
| LikenessText.OtherJsxNamesHide | scripts/ast-duplication.ts:170-176 | a JSX name outside a tag is a name like any other |
| DuplicateGroups.ByLikeness | scripts/ast-duplication.ts:260-269 | a bucket for every likeness some large enough body has, under keys in first-met order, holding each such body as often as it was met and no other |
| DuplicateGroups.GroupsAreClasses | scripts/ast-duplication.ts:260-296 | the groups are the buckets of two bodies or more, each once, with the size of the first body |
| DuplicateGroups.LikenessHasGroup | scripts/ast-duplication.ts:260-296 | a likeness has a group exactly when two positions of large enough bodies carry it, and then one; each such body stands in it as often as it was met, and no other body does |
| DuplicateGroups.GroupHasOneSize | scripts/ast-duplication.ts:287-293 | every member of a group has the group's size, so it does not matter which member it is read off |
| DuplicateGroups.KeepOutermost | scripts/ast-duplication.ts:302-311 | the filter's loop over the groups, larger ones first |
| DuplicateGroups.NothingIsLost | scripts/ast-duplication.ts:298-311 | every unit of every group lies in a unit of a kept group at least as large |
| DuplicateGroups.EachKeptAdds | scripts/ast-duplication.ts:298-311 | no kept group is contained in those kept before it, and filtering again keeps all |
| DuplicateGroups.KeptAreOutermost | scripts/ast-duplication.ts:298-311 | what is kept are some of the groups, larger ones first, and each has a unit that reaches past every unit of the groups kept before it in its file |
| DuplicateGroups.KeysDiffer | scripts/ast-duplication.ts:281-289 | two groups never share a key, even when they name the same members; a key's number is how many groups before it are named the same |
| MovableModules.Searcher.MovableIn | scripts/capability-parity.ts:617-636 | the recursive search over memo and open set ends on every graph, returns and records what the search function says, and leaves the open set as it was |
| MovableModules.FindMovable | scripts/capability-parity.ts:638-662 | the files of the closure answered true, asked in turn over one memo |
| MovableModules.FalseIsReal | scripts/capability-parity.ts:614-636 | a false answer has a path to a blocked file, whatever the memo holds, as long as its own refusals are real |
| MovableModules.RootIsExact | scripts/capability-parity.ts:614-636 | asked with nothing open and an exact (in particular a fresh) memo, the answer is true exactly when nothing reachable is blocked, cycles included |
| MovableModules.SharedMemoIsExact | scripts/capability-parity.ts:617-650 | on a graph without traps, acyclic ones and ones whose free cycles can all move included, a shared memo stays exact from root to root |
| MovableModules.EveryMovableIsReported | scripts/capability-parity.ts:638-662 | no movable file is withheld, on any graph and in any order of asking |
| MovableModules.ReportedAreMovable | scripts/capability-parity.ts:638-662 | on those graphs exactly the movable files of the closure are reported |
| MovableModules.SoundCyclesHaveNoTraps | scripts/capability-parity.ts:614-636 | a graph whose cycles of unblocked files can all move has no trap |
| MovableModules.OpenCanMove | scripts/capability-parity.ts:614-636 | on such a graph a file met while it is open, which the search lets pass, can move |
| MovableModules.TrapOverReports | scripts/capability-parity.ts:614-662 | a trap whose lists begin with its own next file, asked from its head, reports its end, which cannot move |
| MovableModules.ExactIffNoTraps | scripts/capability-parity.ts:614-662 | every order of the dependency lists, of the asking and every closure reports exactly the movable files if and only if no path is a trap: a simple way over unblocked files to one that reaches what blocks it only back through the way |
| MovableModules.SharedMemoOverReports | scripts/capability-parity.ts:617-650 | the cyclic graph on which the shared memo reports a file that reaches a blocked one, and the order of asking that does not |
| ContractHeritage.Closer.CloseOver | scripts/capability-parity.ts:354-375 | the closure over one shared seen set ends on cyclic `extends` and folds what the closure function folds |
| ContractHeritage.ResolveHeritage | scripts/capability-parity.ts:351-378 | every contract keeps its name and heritage, and has each member, required and optional of its own and of every declaration reached from it by names in `extends`, the last one of a name, and no other |
| ContractHeritage.ByNameHoldsLast | scripts/capability-parity.ts:352-352 | a name is in the map exactly when some declaration has it, and it holds the last one |
| ContractHeritage.CloseOverFolds | scripts/capability-parity.ts:354-375 | a closure folds exactly the contracts it newly saw, and those are closed under `extends` and each inherited by a chain that avoids what was seen |
| ContractHeritage.ResolvedIsInheritedUnion | scripts/capability-parity.ts:341-378 | a contract gets exactly the members, required and optional of every contract reachable by name, although branches share the seen set |
| ContractHeritage.BaseOrderIsIrrelevant | scripts/capability-parity.ts:351-378 | the order bases are written in changes nothing |
| ContractHeritage.Attribute | scripts/capability-parity.ts:442-471 | the contract returned has every supplied key, and all its required ones are supplied unless the literal spreads; of all such it has the fewest members and then the first name; none is returned exactly when there is none or fewer than two keys are supplied |
| ContractHeritage.FitOrdersBySize | scripts/capability-parity.ts:462-465 | comparing covered fractions is comparing contract sizes |
| ContractHeritage.TightestIsUnique | scripts/capability-parity.ts:442-471 | with names distinct the tightest fit does not depend on the contracts' order |
| FrameLedger.Recorder.IsQuiet | scripts/browser-page.ts:570-572 | every named method has an answered ask and no ask is unanswered |
| FrameLedger.Recorder.Check | scripts/browser-page.ts:441-448 | exactly the ready waiters leave the list, in order, and are resolved |
| FrameLedger.LookResolves | scripts/browser-page.ts:441-448 | a look at the waiters resolves exactly those whose frame arrived, whose turn is closed, or whose methods are all asked with nothing left unanswered, each as often as it is listed |
| FrameLedger.Recorder.OnCreated | scripts/browser-page.ts:492-492 | a new socket is known |
| FrameLedger.Recorder.OnSent | scripts/browser-page.ts:494-506 | an ask is kept under its socket and id; a frame on a retired socket changes nothing |
| FrameLedger.Recorder.OnReceived | scripts/browser-page.ts:507-533 | arrival, turn end and answer are recorded and the waiters checked; a frame on a retired socket changes nothing |
| FrameLedger.Recorder.OnClosed | scripts/browser-page.ts:535-541 | the socket retires and its unanswered asks are dropped |
| FrameLedger.Recorder.OnNavigated | scripts/browser-page.ts:476-491 | a top navigation retires every known socket and drops the asks and answers on retired ones |
| FrameLedger.Recorder.Restart | scripts/browser-page.ts:579-587 | asks, answers and arrivals are forgotten; the turn's end and the sockets are not |
| FrameLedger.Recorder.Wait | scripts/browser-page.ts:450-457 | a registration is checked at once |
| FrameLedger.FieldsMatchHistory | scripts/browser-page.ts:429-541 | for every trace with fresh ids the fields are exactly what the history says of sockets, asks and answers |
| FrameLedger.QuietIsHistory | scripts/browser-page.ts:570-572 | `quiet` holds exactly when the history since the last restart or navigation answers each method and leaves no ask unanswered on a live socket |
| FrameLedger.ArrivedIsHistory | scripts/browser-page.ts:514-514 | a frame kind counts from its arrival on a live socket until the next restart |
| FrameLedger.ClosedIsHistory | scripts/browser-page.ts:507-533 | the turn is closed exactly when some frame ending a turn arrived on a live socket, restarts and navigations notwithstanding |
| FrameLedger.ChunksLeaveAsksOpen | scripts/browser-page.ts:507-533 | a chunk that says it is not the last leaves its ask open; any other frame with the id answers it |
| FrameLedger.SentWakesNobody | scripts/browser-page.ts:494-506 | a sent frame under a fresh id makes no waiter ready, so its handler need not look |
| FrameLedger.SentWakesIff | scripts/browser-page.ts:494-506 | whatever ids are used, a sent frame makes some wait ready exactly when it is a live ask under a key already answered, everything asked is answered, and no ask held has its method |
| FrameLedger.NoLostWakeup | scripts/browser-page.ts:441-457 | after every event and registration no waiter still listed is ready |
| FrameLedger.RestartStrandsMethodless | scripts/browser-page.ts:570-587 | a restart leaves a ready waiter unwoken exactly when one waits for quiet and names no method |
| FrameLedger.WaitersConserved | scripts/browser-page.ts:441-457 | every registered waiter is still waiting or was resolved once |
| FrameLedger.ReusedIdLosesWakeup | scripts/browser-page.ts:494-533 | the trace with a reused id that loses a wakeup, so fresh ids are needed |
| LcovText.Serialize | scripts/coverage-lcov.ts:67-86 | the appended text is the printed lines of the coverage, totals counted from items or declared |
| LcovText.ParseLcov | scripts/coverage-lcov.ts:111-209 | the line loop yields the records, or the first bad line's error, of folding each line's meaning |
| LcovText.Finish | scripts/coverage-lcov.ts:119-137 | a finished record holds its items, its totals and its reprinted text |
| LcovLines.ValueOfDecimal | scripts/coverage-lcov.ts:76-83 | a printed count reads back as itself |
| LcovLines.FunctionReads | scripts/coverage-lcov.ts:155-161 | a printed function line reads as its item |
| LcovLines.CountReads | scripts/coverage-lcov.ts:163-169 | a printed line count reads as its item |
| LcovLines.BranchReads | scripts/coverage-lcov.ts:171-183 | a printed branch line reads as its item |
| LcovForms.FunctionLineIff | scripts/coverage-lcov.ts:155-161 | an `FNDA:` line is taken exactly when it is a number or a dash, a comma, and a name on one line; a dash counts zero; anything else is refused as malformed |
| LcovForms.CountLineIff | scripts/coverage-lcov.ts:163-169 | a `DA:` line is taken exactly when it is a number, a comma, a number or a dash, and perhaps a checksum without white space, which is dropped; anything else is refused |
| LcovForms.BranchLineIff | scripts/coverage-lcov.ts:171-183 | a `BRDA:` line is taken exactly when it is three numbers and a number or a dash between commas; anything else is refused |
| LcovForms.TotalLineIff | scripts/coverage-lcov.ts:185-198 | a total is its tag and a number and nothing more |
| LcovForms.IgnoredIff | scripts/coverage-lcov.ts:200-202 | exactly the lines that begin with `LF:`, `LH:` or `FN:` are passed over, whatever they hold |
| LcovForms.FileLineIff | scripts/coverage-lcov.ts:140-151 | a file line names the rest of itself; only an empty line and `TN:` are blank; only `end_of_record` ends |
| LcovForms.UnrecognisedIff | scripts/coverage-lcov.ts:140-203 | a line is refused as unrecognised exactly when it is no blank, file, end, item, total or passed-over line |
| LcovText.RecordReads | scripts/coverage-lcov.ts:139-204 | the lines of one printed record add exactly that record |
| LcovText.SplitJoined | scripts/coverage-lcov.ts:139-139 | splitting what was joined by newlines gives the lines back |
| LcovText.RoundTripIffClean | scripts/coverage-lcov.ts:67-209 | printing any coverages and parsing gives the same records, items or declared totals alike, exactly when every name is printable on its line |
| LcovText.RawsReprint | scripts/coverage-lcov.ts:130-130 | the text kept in the records is the printed tracefile again |
| LcovText.ParsedIsPrintable | scripts/coverage-lcov.ts:119-161 | every record that parses is what some coverage with printable names prints |
| LcovRecords.ParsedRecords | scripts/coverage-lcov.ts:111-208 | a parse yields one record for each line that names a file, in order, with the items of the lines up to the next such line, the next end, or the end of the text, and the last total declared under each name |
| LcovRecords.ParseFailsIff | scripts/coverage-lcov.ts:139-204 | a parse fails exactly when some line is unreadable or is an item, total or passed-over line outside a record, and then with the first such line |
| LcovRecords.RecordCounts | scripts/coverage-lcov.ts:119-131 | found is how many items a section has and hit how many were hit; without items both are as declared |
| LcovRecords.PrintedLayout | scripts/coverage-lcov.ts:67-86 | where each line of a printed record stands, and the totals in it |
| LcovMerge.GatherBoth | scripts/coverage-lcov.ts:234-255 | the insertion-ordered map over both records' items, as a loop |
| LcovMerge.MergeLcov | scripts/coverage-lcov.ts:223-287 | the loop over records with its map is the fold of inserting them |
| LcovMerge.OneRecordPerFile | scripts/coverage-lcov.ts:224-286 | one record per file, in the order files are first seen |
| LcovMerge.IncrementalMerge | scripts/coverage-lcov.ts:223-287 | merging a merged prefix with the rest is merging everything at once |
| LcovMerge.MergedCounts | scripts/coverage-lcov.ts:211-255 | a merged record lists exactly the lines, functions and branches of all records of its file; line and function counts are sums over them, branch counts maxima |
| LcovCounts.MergedListing | scripts/coverage-lcov.ts:223-266 | the record several records of a file merge to lists each line and function with the sum of all counts for it, each branch with the largest, and nothing else; lines go up, and branches by line, block and branch |
| LcovCounts.FunctionsInOrder | scripts/coverage-lcov.ts:240-244 | merged functions come in the order they are first met |
| LcovMerge.MergedFound | scripts/coverage-lcov.ts:211-285 | a file of one record keeps that record; of several, each line, function and branch is listed once, found is how many different ones they have and hit how many of those were; a section without items has the largest totals any of them declares |
| LcovMerge.CountsIgnoreOrder | scripts/coverage-lcov.ts:211-285 | what is listed and counted, and every section's totals, do not depend on the records' order |
| LcovMerge.MergedItemsInOrder | scripts/coverage-lcov.ts:257-264 | merged lines and branches come in increasing order, each once |
| LcovMerge.HitsStayWithinFound | scripts/coverage-lcov.ts:216-275 | hit within found is kept, declared-only sections included |
| LcovMerge.MergedTracefileParsesBack | scripts/coverage-lcov.ts:277-287 | printable records merge to a tracefile that parses to the merged records |
| LcovMerge.ParsedMergesBack | scripts/coverage-lcov.ts:111-287 | parsing any tracefiles, keeping some of their records, merging, printing and parsing again gives exactly what was merged |
| BenchTeardown.Manifests.Write | scripts/bench-teardown.ts:116-148 | a write links a free path, replaces its own or a dead owner's manifest, and is refused over a live other owner or an undecodable file |
| BenchTeardown.Manifests.ReplayTeardown | scripts/bench-teardown.ts:211-246 | each unfinished entry is executed once, in order, its status written before the next, stopping at a refused write |
| BenchTeardown.Manifests.ScanUnfinished | scripts/bench-teardown.ts:271-300 | a listed run is unfinished exactly when it is not the driver's own, is readable, has an entry not done, and its owner is nobody or has ended; in flight when its owner runs; unreadable when it cannot be read; each as often and in the order as listed |
| BenchTeardown.Manifests.RecoverAbandonedRuns | scripts/bench-teardown.ts:321-369 | attempts are made only for entries not done of listed readable runs that are not the driver's own, not kept, and of nobody or an ended process, in their order; all of them unless a write was refused |
| BenchTeardown.RecoveryIsDue | scripts/bench-teardown.ts:321-369 | whatever deletions report and however earlier runs went, the attempts are a prefix of what is due and all of it when every write went through |
| BenchTeardown.DueIsAbandoned | scripts/bench-teardown.ts:271-369 | what is due is exactly each entry not done of each such run |
| BenchTeardown.ReplayTouches | scripts/bench-teardown.ts:211-246 | only pending entries are executed and no manifest disappears |
| BenchTeardown.ReplayExecutesPending | scripts/bench-teardown.ts:206-246 | a replay of what is on disk runs exactly the pending entries in order, marks done exactly those deleted, and leaves that on disk |
| BenchTeardown.ReplayLeaves | scripts/bench-teardown.ts:206-246 | every entry not done is attempted once, in order, and no other; a deleted one is done without an error, a failed one keeps its error, stays not done and is a failure |
| BenchTeardown.FinishedReplayDoesNothing | scripts/bench-teardown.ts:218-220 | replaying a finished manifest executes nothing and writes nothing |
| BenchTeardown.InterruptedReplayResumes | scripts/bench-teardown.ts:206-246 | a replay cut after any entry leaves a manifest whose next replay runs what was left and what failed, and nothing deleted before |
| ClaimRace.AloneIsWritten | scripts/bench-teardown.ts:116-148 | undisturbed, the file operations of a write come to the write taken as one step |
| ClaimRace.StepStaysSafe | scripts/bench-teardown.ts:123-147 | no file operation of any writer leaves the states in which one process at most can hold the id |
| ClaimRace.ExcludesIff | scripts/bench-teardown.ts:111-147 | two or more running processes exclude one another in every order of their operations exactly when the path does not name a dead process or nobody, and if it is free when each of them records itself |
| ClaimRace.ExactlyOneClaims | scripts/bench-teardown.ts:111-147 | at a free path, once all writes have ended, exactly one went through, it is the one on disk, and every other was refused |
| TeardownRuns.StepKeeps | scripts/bench-teardown.ts:116-369 | every step of every driver keeps the invariant that makes recovery safe; a claim may be refused, kept or empty without a recorded owner, or replace a manifest nobody uses, naming again what that left alive |
| TeardownRuns.SaveGoesThrough | scripts/bench-teardown.ts:137-147 | no status write of a due replay is ever refused |
| TeardownRuns.NothingIsStranded | scripts/bench-teardown.ts:211-369 | over every run of such claims, creations, replays, crashes and recoveries, each resource alive is named by a pending entry on disk |
| TeardownRuns.DeletionsAreDue | scripts/bench-teardown.ts:295-353 | a deletion only ever runs for the driver's own run once it stopped creating, or for a run of an ended process, never kept, never the driver's own id |
| TeardownRuns.SameSecondIsCareful | scripts/bench-teardown.ts:111-147 | two drivers started under one id are a run the results above cover, and only the first has a manifest |
| StrandingClaims.ClaimCoversIff | scripts/bench-teardown.ts:137-147 | a claim that goes through keeps everything alive named exactly when each resource alive is named by the claim or by a pending entry under another id |
| StrandingClaims.ReusedRunIdAlwaysStrands | scripts/bench-teardown.ts:137-147 | a claim over a manifest whose pending entries alone name a live resource, not named again by the claim, always strands it |
| StrandingClaims.ReplacedCreatorStrands | scripts/bench-teardown.ts:137-147 | a claim over the manifest of a driver still creating strands what that driver creates next, unless it is named again or elsewhere |
| StrandingClaims.HeldManifestStrands | scripts/bench-teardown.ts:137-246 | a claim over a manifest another driver is replaying strands what it names when its driver dies and the replay is written over it |
| StrandingClaims.UnanswerableClaimStrands | scripts/bench-teardown.ts:51-369 | a claim that names resources, is not kept and records nobody can always be followed by a careful run that strands one of them |
| StrandingClaims.SafeIffAnswerable | scripts/bench-teardown.ts:51-369 | under a run id nobody else uses, a claim is safe whatever careful drivers do next if and only if it records its process, is kept, or names nothing |
| StrandingClaims.UnrecordedOwnerStrands | scripts/bench-teardown.ts:51-53 | the shortest run in which an owner that could not be recorded lets a recovery strand a resource |
| StrandingClaims.ReusedRunIdStrands | scripts/bench-teardown.ts:137-147 | the run in which a reused id replaces a dead run's record and strands its resource |
| DevboxFixture.AppEntry.ContainerAppTeardown | scripts/bench-devbox-fixture.ts:323-347 | the outcome, the entry's ids and the order of effects of one teardown |
| DevboxFixture.AppEntry.Prepare | scripts/bench-devbox-fixture.ts:324-332 | new ids are written before the application is removed |
| DevboxFixture.AppEntry.Settle | scripts/bench-devbox-fixture.ts:336-346 | absent with no id known, otherwise deleted exactly when every id was swept with nothing left |
| DevboxFixture.AppEntry.SweepAll | scripts/bench-devbox-fixture.ts:338-346 | ids are swept in turn up to the first that refuses or leaves something |
| DevboxFixture.TeardownDoes | scripts/bench-devbox-fixture.ts:323-346 | new ids are written first, then a listed application is removed; after a failed removal nothing more is done, and otherwise the sweep |
| DevboxFixture.AsksInTurn | scripts/bench-devbox-fixture.ts:338-346 | an id is asked for exactly when all before it were swept with nothing left |
| DevboxFixture.AppEntry.RecordApplicationIds | scripts/bench-devbox-fixture.ts:296-306 | listed ids the entry lacks are appended, and written when there are any |
| DevboxFixture.RecordingKeepsNoRepeats | scripts/bench-devbox-fixture.ts:297-303 | no listed id is missed; the entry stays free of repeats exactly when the listing names no new id twice |
| DevboxFixture.RemovedWereAlwaysDurable | scripts/bench-devbox-fixture.ts:291-347 | over any teardowns and recordings, crashes and refused sweeps, with listings that name no id twice, no durable id is lost, and a removal deletes only what was durable before exactly when its own listing shows nothing new |
| DevboxFixture.RunIsDurable | scripts/bench-devbox-fixture.ts:323-363 | one run from ids without repeats loses none; a removal it lives to takes only what is on disk exactly when every id it deleted was recorded or just listed |
| DevboxFixture.DurableIffNoRepeats | scripts/bench-devbox-fixture.ts:325-330 | ids without repeats are exactly what makes every removal of recorded or just listed ids durable first |
| DevboxFixture.OkMeansNothingLeft | scripts/bench-devbox-fixture.ts:332-346 | a deleted answer means every id recorded or listed was swept with nothing left, and conversely; absent means nothing was known |
| DevboxFixture.BoxNameReadsBack | scripts/bench-devbox-fixture.ts:444-457 | exactly the names some run gives its boxes are read back to that run's Worker |
| DevboxFixture.StateOnlyAfterWorker | scripts/bench-devbox-fixture.ts:373-430 | durable state is reported deleted exactly when the Worker of the run that named the box was deleted earlier in the same recovery |
| Deadline.Watchdog.Heard | scripts/deadline.ts:416-420 | output moves the last-output mark and nothing else |
| Deadline.Watchdog.OnTick | scripts/deadline.ts:458-478 | a tick does nothing once killed or while searching; otherwise it tells a stretch not yet told once three quarters of the bound are silent, and kills once the bound is silent and a quarter of it has passed since it told |
| Deadline.FieldsAreHistory | scripts/deadline.ts:413-467 | the watchdog's marks are the stretch's start and the tick that told it, read off the whole history |
| Deadline.ToldTells | scripts/deadline.ts:80-86 | the told tick of a stretch is the one that told it, and the only one |
| Deadline.KillIsFair | scripts/deadline.ts:74-86 | over any outputs and however late ticks, a kill follows the whole bound of silence and a quarter of it after a notice in that same stretch |
| Deadline.OneNoticePerStretch | scripts/deadline.ts:80-86 | two notices always have the end of a stretch between them |
| Deadline.SilenceIsKilled | scripts/deadline.ts:458-478 | with ticks at most d apart an unbroken silence is killed by its bound and two d |
| BenchPilot.ByTask | scripts/bench-pilot.ts:243-250 | the grouping loop puts each outcome under its task, in order |
| BenchPilot.TaskResults | scripts/bench-pilot.ts:259-283 | each task's result in task order, or the first missing measurement |
| BenchPilot.BuildPilotReport | scripts/bench-pilot.ts:233-332 | the built report, or the missing measurement, or a report that does not parse |
| BenchPilot.BuiltWhenMeasured | scripts/bench-pilot.ts:266-300 | a missing measurement is raised exactly when some outcome lacks one, so the second check over all outcomes never raises |
| BenchPilot.GroupingOnlyReorders | scripts/bench-pilot.ts:243-250 | the outcomes task by task are the outcomes, reordered |
| BenchPilot.AggregatesIgnoreOrder | scripts/bench-pilot.ts:161-176 | sum, mean and maximum do not see the order of a list |
| BenchPilot.AggregatesAgree | scripts/bench-pilot.ts:142-185 | every aggregate the builder takes over the run is the one the validator derives from the grouped results |
| BenchPilot.BuiltResultFlaw | scripts/bench-pilot.ts:116-140 | a built task result passes the validator exactly when its repeats are all there once |
| BenchPilot.BuiltFits | scripts/bench-pilot.ts:26-67 | a built report parses exactly when its names, budget and outcomes do |
| BenchPilot.AcceptedIffGood | scripts/bench-pilot.ts:86-332 | the validator accepts the builder's report exactly for error-free, breach-free, measured runs covering tasks by repeats once each, meeting the minimums and the expectations |
| BenchPilot.AcceptedIsComplete | scripts/bench-pilot.ts:86-215 | any accepted report has one result per named task and each repeat index once in it |
| BenchPilot.PassedWithinAttempts | scripts/bench-pilot.ts:187-187 | the guard against more passes than attempts never fires |
| PilotReports.BuiltIsTheRuns | scripts/bench-pilot.ts:302-332 | a built report's own fields are the run's, its attempts are all outcomes, and every outcome is measured |
| PilotReports.BuiltCounts | scripts/bench-pilot.ts:302-332 | passed, errors and breaches of a built report are how many outcomes passed, failed with an error, and breached |
| PilotReports.BuiltTasks | scripts/bench-pilot.ts:243-264 | its tasks are those the outcomes name, each once and in order, with one result each |
| PilotReports.BuiltResult | scripts/bench-pilot.ts:259-283 | a task's result lists the tokens, calls and repeat indices of its own outcomes in their order, and counts those that passed, failed and breached |
| PilotReports.BuiltUnstable | scripts/bench-pilot.ts:252-257 | a task is listed as unstable exactly when one of its outcomes passed and another did not |
| PilotReports.BuiltAggregates | scripts/bench-pilot.ts:286-332 | the means times the number of outcomes are the totals of what they measured, and the maxima the largest |
| PilotReports.AcceptsIff | scripts/bench-pilot.ts:86-215 | any report is accepted exactly when it fits the schema, has a complete result for each task, adds up to its results, and is clean and of what was expected |
| BenchPool.StepKeeps | scripts/bench.ts:920-935 | every interleaved step keeps the pool's invariant |
| BenchPool.PoolIsBounded | scripts/bench.ts:919-931 | under any schedule each job starts at most once and in order, at most `width` are in flight, and results stand at their own index |
| BenchPool.SchedulesEnd | scripts/bench.ts:924-932 | every schedule ends within three moves a job and one a lane |
| BenchPool.EndedPool | scripts/bench.ts:919-935 | at the end a lane threw exactly when a job rejects, and otherwise every job has its result; with no lane nothing ran |
| BenchPool.InPool | scripts/bench.ts:920-935 | whatever the schedule, a rejection if and only if some job rejects, else each job's result at its own index |
| BenchPool.ShardsAreTheCorpus | scripts/bench.ts:214-225 | the shards together are the corpus |
| BenchPool.ShardSizes | scripts/bench.ts:214-225 | shards are refused exactly when they outnumber the tasks; otherwise none is empty and sizes differ by at most one |
| BenchPool.ShardsAreDisjoint | scripts/bench.ts:214-225 | no occurrence of a task is in two shards |
| BenchPool.ShardIsDealt | scripts/bench.ts:214-225 | a shard's k-th task is the one at its index plus k times the count in the sorted corpus |
| InferenceProxy.NamedPartsAddUp | scripts/bench-inference-proxy.ts:66-83 | a usage naming both parts counts as their sum or not at all; a total can be below its prompt exactly when no completion is named |
| InferenceProxy.UsageCounts | scripts/bench-inference-proxy.ts:66-83 | which usages count and as what: the envelope's own or else its result's, with a prompt named, and a completion whose sum with it is the total if one is named, or else just a total |
| InferenceProxy.UsagesAreSaid | scripts/bench-inference-proxy.ts:85-107 | a usage is listed for each fragment, the whole body or a data line, that says one, in their order, and for no other |
| InferenceProxy.UsagesFromBody | scripts/bench-inference-proxy.ts:85-107 | the usages of the whole body and then of its data lines, one for each fragment that says one, in order |
| InferenceProxy.Reduce | scripts/bench-inference-proxy.ts:158-162 | the first largest usage, and the running peak over all prompts |
| InferenceProxy.Proxy.Fetch | scripts/bench-inference-proxy.ts:173-182 | a breached proxy answers 429, an unknown route 400, and only a forwarded request is a call |
| InferenceProxy.Proxy.FetchFailed | scripts/bench-inference-proxy.ts:195-199 | an unreachable upstream answers 502 and leaves every counter |
| InferenceProxy.Proxy.Fetched | scripts/bench-inference-proxy.ts:202-208 | an answer becomes pending |
| InferenceProxy.Proxy.InspectAnswer | scripts/bench-inference-proxy.ts:148-168 | an inspection charges, counts as unmetered, or ignores the answer, and ends its pending |
| InferenceProxy.Proxy.Charge | scripts/bench-inference-proxy.ts:158-167 | one response is charged its largest usage, and the breach told when it first passes the cap |
| InferenceProxy.InspectionCharges | scripts/bench-inference-proxy.ts:148-168 | an ok answer some fragment of which says a usage adds the largest of them to the tokens and raises the peak to its largest prompt; one that says none is unmetered; one that is not ok counts for nothing |
| InferenceProxy.RunAccounts | scripts/bench-inference-proxy.ts:137-209 | in every interleaving tokens are the sum of largest usages, calls split into six kinds, breached means over the cap, told at most once, and unmetered is exact for a throwing callback too |
| InferenceProxy.BreachIsFinal | scripts/bench-inference-proxy.ts:164-174 | after a breach calls stand, it is not told again, and every later request is refused |
| DeployedGraph.ImportEdges | scripts/deployed-graph.ts:102-120 | the ordered edge map of a module, as its two loops build it |
| DeployedGraph.ImportWinsOverRequire | scripts/deployed-graph.ts:105-119 | one edge per specifier, an import winning over a require |
| DeployedGraph.EdgesInOrder | scripts/deployed-graph.ts:102-120 | the edges come as their specifiers are first named, imports and then requires |
| DeployedGraph.EdgesAreAsked | scripts/deployed-graph.ts:102-170 | the edges of a readable module are its imports and what it requires and does not import; nothing else has any |
| DeployedGraph.FollowEdges | scripts/deployed-graph.ts:168-185 | one module's refused specifiers and followed paths, in order |
| DeployedGraph.RefusalsAreEdges | scripts/deployed-graph.ts:168-182 | one record per refused specifier, and only for those |
| DeployedGraph.Traverse | scripts/deployed-graph.ts:128-187 | ends on every finite graph; visited is exactly what is reached from the entries through specifiers of readable modules that are not provided and are answered without an error, with a path, inside; each specifier refused and each file unreadable among the visited is recorded once with its reason, and no others |
| ByteOffsets.Offsets | scripts/complexity.ts:176-197 | each entry is the UTF-8 length of the text before that position, the middle of a pair counting as its end |
| ByteOffsets.PairReadsBack | scripts/complexity.ts:182-182 | a pair decodes to a code point exactly when it is that code point's surrogates (section 2 of RFC 2781) |
| ByteOffsets.EncodedReadsBack | scripts/complexity.ts:184-187 | the bytes counted for a code point are those that section 3 of RFC 3629 writes, since they announce their number and read back as it |
| ByteOffsets.DecodeSplits | scripts/complexity.ts:180-192 | decoding splits at every code-point boundary, lone surrogates included |
| ByteOffsets.OffsetsGrow | scripts/complexity.ts:176-197 | offsets never fall and end at the file's size |
| ByteOffsets.OffsetsTellBoundariesApart | scripts/complexity.ts:306-307 | two code points never share an offset, so an offset names at most one function's start |
| ByteOffsets.OffsetsFit | scripts/complexity.ts:177-177 | no offset passes three bytes a unit, which bounds what the 32-bit entries must hold |
| BloatCensus.TreeSizer.Visit | scripts/bloat-census.ts:149-162 | one recursive walk returns the subtree's size and its nested part and sizes every function at or below it |
| BloatCensus.TreeSize | scripts/bloat-census.ts:145-165 | the total is the tree's node count; exactly the functions are sized; a function's nodes are its subtree's, and its own are those whose innermost function it is |
| BloatCensus.OwnNodesAddUp | scripts/bloat-census.ts:145-165 | the functions' own counts and the nodes in no function add up to the tree |
| BloatCensus.OwnAtLeastOne | scripts/bloat-census.ts:155-159 | a function owns at least itself and never more than its subtree |
| DeployLive.DeployLive.Start | scripts/deploy-live.ts:65-69 | a row starts and the file says so at once |
| DeployLive.DeployLive.Hears | scripts/deploy-live.ts:72-81 | output moves the stream's unfinished line and, when a whole line shows, the row's last line and a rewrite soon |
| DeployLive.DeployLive.End | scripts/deploy-live.ts:82-85 | a row ends and the file says so at once |
| DeployLive.DeployLive.Close | scripts/deploy-live.ts:90-93 | the file is written a last time and then closed |
| DeployLive.DeployLive.ArmSoon | scripts/deploy-live.ts:95-101 | one timer at a time, a second after the last rewrite or at once |
| DeployLive.DeployLive.Write | scripts/deploy-live.ts:103-122 | a rewrite disarms the timer and says what the running rows printed; nothing once closed |
| DeployLive.ChunksDoNotMatter | scripts/deploy-live.ts:72-81 | what a row shows does not depend on how its output was cut, while no unfinished line passed what is kept of one |
| DeployLive.LongLineShowsItsCut | scripts/deploy-live.ts:72-81 | when an unfinished line's newline comes in a chunk of its own the row shows what is kept of the line, and otherwise the line |
| DeployLive.CutIsSeen | scripts/deploy-live.ts:48-81 | a line of one letter more than is kept, by the code's own rule of showing: its last letters or its first |
| DeployLive.CutsOfTextIff | scripts/deploy-live.ts:49-81 | keeping a line's first characters, cuts are never seen whatever comes next exactly when the unfinished line is no longer than what is kept or starts as it ends |
| DeployLive.ChunksDoNotMatterIff | scripts/deploy-live.ts:31-81 | the same by the whole rule, escapes, carriage returns and trimming included, for a long unfinished line that is plain so far, whatever comes next |
| DeployLive.NoLostUpdate | scripts/deploy-live.ts:95-122 | while open, the file is up to date or a timer will rewrite it within the second |
| DeployLive.DueStands | scripts/deploy-live.ts:95-122 | an armed timer stands until a rewrite, and every rewrite brings the file up to date |
| DeployLive.OutputIsThrottled | scripts/deploy-live.ts:95-101 | output alone never rewrites the file within a second of the rewrite before |
| DeployLive.ClosingIsFinal | scripts/deploy-live.ts:89-93 | the file's last word is what was running when the phase closed it |
| LiveRows.RowsAreRead | scripts/deploy-live.ts:65-86 | after any events the rows are those started, with their titles and starts, and the running ones those started and not ended |
| LiveRows.FileIsRead | scripts/deploy-live.ts:82-122 | while open, a start, an end, the timer and the closing each write at once a file that lists exactly the rows started and not ended, each with its last line; output leaves the file alone |
| LiveRows.OutputIsRead | scripts/deploy-live.ts:71-81 | a chunk goes on from its own stream's unfinished line; of the lines it ends the last that shows as anything is the row's last line; the end of what is left unfinished is kept |
| LiveRows.OutputArms | scripts/deploy-live.ts:71-101 | only a shown line arms the timer, once, for a second after the last rewrite or at once |
| LiveRows.SequenceIsDropped | scripts/deploy-live.ts:31-51 | a colour or cursor sequence does not show |
| LiveRows.ReturnStartsOver | scripts/deploy-live.ts:49-51 | only what follows the last carriage return shows |

## Left out

- TeardownRuns.NothingIsStranded: of a claim over an earlier manifest it asks that no driver replays it or creates under it, and that what it left alive is named again. `ReusedRunIdAlwaysStrands`, `ReplacedCreatorStrands` and `HeldManifestStrands` say when breaking one of these strands a resource; where that resource is also named elsewhere the claim may turn out harmless.
- BenchTeardown.Manifests.Write: one atomic step, here and in `TeardownRuns`. Its file operations, and what two writers can do between them, are in `ClaimRace`; there a process that ends after its write went through is a new race from the path it left.
- ByteOffsets.Offsets: entries are unbounded integers; `OffsetsFit` gives the size below which the 32-bit table holds the same.
- The SHA-256, its 16-character slice and the `join('')` of `fingerprintOf`: the token sequences before them are modelled. `repeatGroups` of the bloat census filters as `DuplicateGroups` does and would add nothing harder.
- The teardown entries' details and timestamps, `reconcileCounters`, and `checkCleanup`, whose C7 pass replays with an executor that always succeeds.
- `drainBucketResidue`, wrangler, R2, the registry's HTTP and every other Cloudflare call: their answers are parameters.
- The ledger's tallies, account text and file replies, and CDP itself. Its key is modelled as a pair of socket and id rather than their joined text.
- DeployLive.ChunksDoNotMatterIff: a long unfinished line with escapes, carriage returns or white space at its ends has only the direction of `ChunksDoNotMatter`. The methods take the rule of showing as a parameter.
- `reanchor` and the file filter between parsing and merging in `coverage.ts`: what is kept is any of the parsed records.
- Process groups, signals, pipes and leftovers in `deadline.ts`: only the watchdog is modelled.
- The parsing of JSON and of event-stream text in the proxy: a body is what its fragments parsed to.
- `walkModules`, `resolveSpecifier`, esbuild's resolver and the parser's syntax trees: their results are parameters. `blockers` and `deps` of the movable search are given.
- The orders the reports are sorted by (`localeCompare`, kind ranks) and the text of every report line and key: a group's key is a pair of its base and repeat number.
- `inventory`, `judge` and `isGreen` in `complexity.ts`, `selectTasks` in `bench.ts`, `restoreGuarded` and `scoreSandbox` in `bench-sandbox.ts`, and `settle` in `edge-settled.ts`: filters, maps and simple loops that would add only easy members.
- `shrinkOnly` and `reconcile` of the gate ratchet, the sealed splits and statistics of `packages/core`: not part of this model.
