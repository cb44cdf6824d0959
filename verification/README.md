# Agent24: proofs about its hard parts

This project models the parts of the repository with the most intricate state
and proves what they promise. Each module states which source file it models.

**Crash protocol** (`Journal`, `Worktree`). `docs/agent/mutate.py` overwrites a
source file in place under a journal. Each file operation is a method that may
be struck by a fault: the process dies there, or the system refuses, with the
target half done; so may a message be. `Sound` is the invariant that holds
wherever that happens; the ghost `book` is a log of what others than the tool
did to files, and `found` and `again` are the files as the tests found them.
SHA-256 is taken to be free of collisions.

**Text** (`RustScanner`, `RustTokens`, `Inject`, `DepInfo`, `JsonText`,
`Surrogates`, `JsonScan`, `JsonReport`, `JsonClosed`, `Scrub`). Hand-written
scanners, each with a printer for what it reads, and the theorem that reading
what was printed gives back what was meant. JSON is that of RFC 8259, in
UTF-16 code units. Character classes of the host languages (alphanumeric,
white space) and the normalizations of `text.ts` are function parameters.

**Grids and graphs** (`MergeRuns`, `Raster`, `FloodFill`, `Descendants`).
Rectangles merged from cells and painted back, connected components, and the
process tree below a root.

**Interleavings** (`JobServer`, `ExtractChecks`, `SenderQueues`, `Inbound`,
`ServiceManager`, `CallbackChannel`). A method is the code between two awaits, and any order of
calls is an interleaving. Ghost fields keep the history that the promises are
about.

**Scoring** (`Summary`, `Counting`, `ReviewReport`, `ReviewCounts`,
`ReviewMerge`, `WorstAnswer`, `Candidates`) and **loops against a server** (`Paging`, `Upload`,
`LogThrottle`).

## What turned out not to hold

- `mut` takes a file outside the tree if the test binary was built from it, and
  no `recover` then restores it. Recovery works if and only if the journaled
  file lies inside the tree (`Journal.RecoveryRestores`,
  `Journal.StrayIsNotRecovered`).
- A journal is not always dropped: with a drop target that is not empty its
  rename raises outside of what `restore` catches, so `recover` puts the file
  back, exits 3 and leaves the journal, every time. It happens exactly if that
  target is there (`Journal.Blocked`), which takes an ignored error of `rmtree`
  before (`Journal.RecoveryRestores`, `Journal.BlockedIsNotDropped`,
  `Worktree.Tree.CmdRecover`).
- With failing output, `mut` can end with code 1, which promises that nothing
  was moved, or with 120, over a torn source: the message about the failed
  restoration raises out of `restore`, and the one about that raises again. And
  a `recover` that cannot print does not put back a half-written file
  (`Worktree.TornAndUnsaid`). If every message is printed, any code but 2 means
  that the sources are as they were (`Worktree.Tree.CmdMut`).
- A start that throws, because its health path makes no address (`health`
  instead of `/health`) or its `startCmd` has a length and is no list, leaves
  its box pending; a later start of that module then replaces it there and no
  shutdown tells it to stop. These are exactly the boxes no shutdown tells
  (`ServiceManager.Manager.ShutDown`, `ServiceManager.FirstBoxLost`). The one
  caller, `packages/node-daemon/src/capability-registry.ts:81`, does not catch
  the rejection, which by the default of Node ends the daemon before that.
- A completed run whose `output.text` is no string makes `reply` throw before
  its `try`, so the message is run again at the next poll, although a comment
  says that a run which reached its end replies and never throws
  (`Inbound.RunTwice`).
- `merge_runs` passes over cells with a negative coordinate; all claims about
  it are exact for the others.
- In a dep-info file that ends with one newline a final backslash of the last
  path is read as a space (`DepInfo.ParsedBeforeNewline`).
- `checkRerunKey` reports a problem on every conforming server when there is no
  question to ask, and only then (`ExtractChecks.CheckRerunKey`). `askProblems`
  (`packages/documents-accept/src/samples.ts:203`) refuses such a list before a
  run, so only a direct call can get there.
- `checkReplay` and `checkCancelledStays` can fail on a conforming server in
  one way, the wait for the worker that runs out: exactly if the last poll
  found the job still going on.
- A session with an empty id, or with none, makes `sessionFor` ask for another
  (`SenderQueues.OneSession`, `Inbound.AskedTwice`).
- `_onLine` throws, which nothing catches, at a line that is the JSON value
  `null`, although a comment there says that a stray line must not crash the
  process; and at a response to a pending call whose error is `null` or has a
  message with no conversion to a string, and that call is then never settled
  (`CallbackChannel.Channel.OnData` says exactly when,
  `CallbackChannel.NullErrorIsLost`).
- `descendants` does not end when the root is its own ancestor, and ends
  whenever it is not (`Descendants.Descendants`).

## Model

| member | source | states |
|---|---|---|
| `Worktree.Tree.CrashAndRecover` | docs/agent/mutate.py:770-916 | after any sequence of `mut`, `baseline`, `recover` and outside edits, the mutated files in the tree, each command killed or refused by the system at any file operation or message: a `recover` that the system lets through puts every file back to what others left in it unless somebody edited under an open journal; a journal is left exactly where a drop target that is not empty bars its rename, which takes an ignored removal error, and the exit code is then 3 and otherwise 0; and edited under a journal or not, no edit is lost |
| `Worktree.Tree.Run` | docs/agent/mutate.py:770-916 | any sequence of commands and outside edits, each command struck anywhere, keeps the invariant; what is entered in the log are just the edits each command let happen, in order; for every file the content its last edit wrote is in the file, in `bak` or in an archive, unless it was just what a mutation of that file by one of the commands, or the one in force before, is; a file nobody edited has what it held at first there; and what each exit code tells of the disks before and after its command: 0, 10 and 30 only of an admitted mutation that was read red, alive or timed out, with the sources as they were if nobody edited |
| `Worktree.Tree.CmdMut` | docs/agent/mutate.py:770-869 | wherever a reading leaves, the tests were run with the mutation in the file and every other file untouched, and a red one was confirmed with the original back; with no fault and no signal: which edits are in the log, what every file holds and what the exit code is, 2 exactly if the tests leave neither original nor mutation in the file; the log grows by no edits, by those made while the tests run, or by these and those after; begun without a journal, left alone, and its messages printed, `mut` ends with any code but 2 only with the sources as they were; begun with a journal it refuses and changes no source; with one torn overwrite and failing output it ends with 1 or 120 over the torn source |
| `Worktree.Tree.CmdRecover` | docs/agent/mutate.py:872-883 | from any sound state, with no fault: what the disk is, and the exit code: 0 without a journal, 1 for one outside the tree, 2 for a changed file, 3 for a blocked one, and else 0; from a calm state in the tree all files are back and a journal is left exactly if it is blocked; with any fault the invariant holds, and 0 means that none is left; where output fails, a marked half write is not put back |
| `Worktree.Tree.Leave` | docs/agent/mutate.py:886-916 | a value or exception gives its code; a late signal turns an ordinary code into 128 + n, but never 2 nor a code from 128 on; an exception whose message cannot be printed ends with 1, and unflushed output may end with 120 |
| `Worktree.Tree.Say` | docs/agent/mutate.py:262-273 | a message may be cut off as any operation may, and always fails where output does |
| `Worktree.TornAndUnsaid` | docs/agent/mutate.py:237-273 | for any file in the tree and any torn content other than the original and the mutation: with the overwrite cut off and output failing, `mut` ends with 1 or 120, the code of a refusal among them, and `recover` leaves the torn content there as long as output fails |
| `Worktree.Tree.Restore` | docs/agent/mutate.py:237-273 | without a fault it writes the original back exactly where the file is the original, the mutation or a marked half write, archives foreign bytes first, raises exactly if the journal is then blocked, and otherwise changes nothing; an exception leaves it only over the restored file or where a message failed; at any fault the invariant holds |
| `Worktree.Tree.RestoreBytes` | docs/agent/mutate.py:239-271 | the part of `restore` before the journal is dropped: what is in the file, in the archives and under the marker after success, refusal and a fault, each message being a step that may fail; where output fails nothing is written over foreign bytes |
| `Worktree.Tree.WriteSource` | docs/agent/mutate.py:177-195 | the marker covers every torn content: whatever the fault, the file is one that `restore` takes for its own |
| `Worktree.Tree.WriteJournal` | docs/agent/mutate.py:212-225 | the formal journal is whole or not there at every fault, and after success holds original, path and both digests |
| `Worktree.Tree.DropJournal` | docs/agent/mutate.py:228-234 | the journal leaves its formal name in one step and only over a restored file; where it is blocked nothing changes; a refusal after the rename leaves it whole under the drop name |
| `Worktree.Tree.Rename` | docs/agent/mutate.py:224-233 | refused exactly where the target is there and not empty, without a change; a fault finds it done or not done |
| `Worktree.Tree.CheckNoJournal` | docs/agent/mutate.py:137-153 | every temporary directory is gone unless an ignored removal error left it, every other one stays, and an open journal refuses |
| `Worktree.Tree.ReadJournal` | docs/agent/mutate.py:198-209 | refuses exactly the incomplete journal when undisturbed, and otherwise returns what the journal holds |
| `Worktree.Tree.Mutate` | docs/agent/mutate.py:800-836 | from the opened journal to the exit code: a reading leaves only if the tests found the mutation in the file and nothing else changed; the original is back before any verdict leaves, and before any exception unless a message failed, or the code is 2 or the process dies; and which edits were let happen |
| `Worktree.Tree.InjectAndTest` | docs/agent/mutate.py:804-814 | the tests find the mutation in the file and every other file untouched, whenever there is a reading; whatever tests and signals do, the file stays one that `restore` knows unless somebody edits it; edits are entered as made under the mutation |
| `Worktree.Tree.CmdBaseline` | docs/agent/mutate.py:604-635 | `baseline` changes no source and opens no journal, and undisturbed it ends with 0 exactly if no journal is open and the tests were green |
| `Worktree.Tree.Apply` | docs/agent/mutate.py:237-286 | an outside write or deletion between the tool's reads and writes leaves that file as it says and no other touched, is entered in the log, and keeps the invariant |
| `Worktree.Tree.constructor` | docs/agent/mutate.py:112-122 | a tree without a journal satisfies the invariant |
| `Journal.NoEditIsLost` | docs/agent/mutate.py:237-273 | in every state the invariant allows, what the last edit in the log wrote to a file is in it, in the journal's `bak` or in an archive, unless it was the mutation then in force; and so is what a file nobody edited held at first |
| `Journal.LeftIs` | docs/agent/mutate.py:237-286 | what is left in a file is what the last entry about it says, and what it held at first if there is none |
| `Journal.OriginalIsKept` | docs/agent/mutate.py:200-273 | without edits under an open journal the original is in the file or in `bak` at every moment |
| `Journal.RecoveryRestores` | docs/agent/mutate.py:872-883 | what an undisturbed recovery does, in a calm state: it restores all files exactly if the journaled file lies in the tree (or had not changed), and ends without a journal exactly if there was none or it lies in the tree and is not blocked |
| `Journal.StrayIsNotRecovered` | docs/agent/mutate.py:779-783 | `mut` does not ask whether the file lies inside the tree: a sound state with the mutation in a file outside it, which no recovery takes out |
| `Journal.BlockedStays` | docs/agent/mutate.py:228-234 | a blocked journal stays blocked, and recovering it again changes nothing more |
| `Journal.BlockedIsNotDropped` | docs/agent/mutate.py:228-234 | a sound state in which every recovery restores the file and none ends without a journal |
| `Journal.OpeningKeeps` | docs/agent/mutate.py:212-225 | giving a whole journal its formal name keeps the invariant |
| `Journal.DroppingKeeps` | docs/agent/mutate.py:228-234 | taking the formal name away over a restored file keeps it |
| `Journal.OverwriteKeeps` | docs/agent/mutate.py:184-193 | under the marker any bytes may be in the file, if what was there is vouched for or archived |
| `Journal.MarkerKeeps` | docs/agent/mutate.py:194-195 | the marker may go once the file is original or mutation |
| `Journal.EditKeeps` | docs/agent/mutate.py:237-286 | an outside write or deletion keeps the invariant with that entry in the log |
| `RustScanner.Source.Scan` | docs/agent/mutate.py:672-734 | the index loop of `_scan` yields the segments of its step function from position 0 |
| `RustScanner.Source.ScanTiles` | docs/agent/mutate.py:672-734 | the segments are not empty, follow each other without gap or overlap, and cover the whole text |
| `RustScanner.Source.CodeOnly` | docs/agent/mutate.py:737-739 | joins the code segments of the scan |
| `RustScanner.Source.FindComment` | docs/agent/mutate.py:742-751 | gives the kind of the first segment that holds the position, if it is a comment |
| `RustScanner.Source.CodeOnlyIsUncommented` | docs/agent/mutate.py:737-751 | `code_only` is exactly the characters at which `comment_at` finds no comment, in order |
| `RustTokens.TokenStep` | docs/agent/mutate.py:672-734 | at the start of any well-placed token (string, raw string, character, lifetime, comment, other) one step reads exactly that token, as code or as comment |
| `RustTokens.CodeOfTokens` | docs/agent/mutate.py:672-739 | on any text printed from well-formed tokens the code segments hold exactly what is printed of the tokens that are no comments |
| `RustTokens.CodeOnlyOfTokens` | docs/agent/mutate.py:737-739 | `code_only` of printed tokens is the print of its non-comment tokens, nested block comments and `#`-delimited raw strings included |
| `RustTokens.CommentAtOfTokens` | docs/agent/mutate.py:742-751 | of every character of printed tokens: `comment_at` says line for one of a line comment, block for one of a block comment, nested ones included, and nothing for any other |
| `RustTokens.BlockRead` | docs/agent/mutate.py:672-734 | a block comment with comments nested to any depth is read to its own end |
| `Inject.Inject` | docs/agent/mutate.py:640-669 | a replacement is made exactly where the anchor is unique, does not survive in the replacement, and the code without comments and white space changes |
| `Inject.SqueezedMeans` | docs/agent/mutate.py:665-665 | white space goes and everything else stays in its order, wherever the text is cut (and `SqueezedChar` of one character) |
| `Inject.CommentsAreNoCode` | docs/agent/mutate.py:640-669 | two well-formed sources compare equal there exactly if their tokens other than comments do |
| `DepInfo.ParseDepInfo` | docs/agent/mutate.py:513-544 | the two index loops compute the first rule's words as the grammar-shaped functions define them |
| `DepInfo.ParsedPrinted` | docs/agent/mutate.py:513-544 | for every target and list of non-empty paths whose only white space is the space, escaped and joined with spaces or continuation lines, followed by nothing or by a blank line and anything, the paths come back exactly |
| `DepInfo.ParsedBeforeNewline` | docs/agent/mutate.py:513-544 | with a single newline at the end they come back if and only if the last path does not end in a backslash; and what comes back in that case |
| `Descendants.Descendants` | docs/agent/mutate.py:323-328 | the search ends exactly if the root is not its own ancestor in the snapshot, within one turn more than there are lines, and then has every descendant once and nothing else |
| `Descendants.Children` | docs/agent/mutate.py:316-322 | each process with its children |
| `Descendants.KidsStand` | docs/agent/mutate.py:316-322 | the children of a process are listed in the order of their lines, and each line that names it as the parent is one of them |
| `Descendants.ParentMeans` | docs/agent/mutate.py:316-322 | the parent of a process is what its line says |
| `Descendants.OpeningOne` | docs/agent/mutate.py:324-327 | opening one process puts only new descendants on the list |
| `Descendants.CirclingOn` | docs/agent/mutate.py:324-327 | with a root on a cycle there is always a process of the cycle left to open |
| `Surrogates.HasLoneSurrogate` | packages/data-dir/src/daemon-state.ts:80-96 | the index loop agrees with the recursive pass |
| `Surrogates.LoneOfLiteral` | packages/data-dir/src/daemon-state.ts:79-96 | for every string literal of RFC 8259 section 7 it answers whether the decoded string has a surrogate without its other half, the raw text itself being well-formed |
| `Surrogates.LoneUnitIsBroken` | packages/data-dir/src/daemon-state.ts:79-96 | searching from the left for an unpaired surrogate finds one exactly if some position holds one |
| `JsonScan.ScanTopLevel` | packages/data-dir/src/daemon-state.ts:101-142 | the loop over `i`, `depth`, `expectKey`, `key` and `out` computes the pass defined on suffixes |
| `JsonScan.RunLiteral` | packages/data-dir/src/daemon-state.ts:107-124 | a literal with any escapes is read as a whole, and what it means is what is recorded |
| `JsonScan.RunNested` | packages/data-dir/src/daemon-state.ts:101-142 | nothing inside a nested value is ever recorded |
| `JsonScan.ScanOfPrinted` | packages/data-dir/src/daemon-state.ts:101-142 | the scan of any printed object, with any white space, nesting and escapes, is a fold over its top-level members |
| `JsonReport.ScanMeans` | packages/data-dir/src/daemon-state.ts:98-142 | on any printed object: a duplicate is reported exactly if a known decoded key repeats at the top level, and it is the first that does; each number key has its last literal; a surrogate is reported exactly if a key or known string is broken, and it names the place in the first member that is |
| `JsonReport.DuplicateMeans` | packages/data-dir/src/daemon-state.ts:119-121 | the duplicate clause, over any list of members |
| `JsonReport.NumbersMean` | packages/data-dir/src/daemon-state.ts:128-136 | the number clause |
| `JsonReport.LoneMeans` | packages/data-dir/src/daemon-state.ts:115-126 | the surrogate clause, with the place that is named |
| `JsonClosed.PrintedClosed` | packages/data-dir/src/daemon-state.ts:101-116 | no printed object has a literal whose closing quote the inner loop would miss |
| `JsonClosed.ScanPrinted` | packages/data-dir/src/daemon-state.ts:101-142 | the imperative scan applied to printed objects, with the meaning above as its postcondition |
| `MergeRuns.MergeRuns` | tools/mascot/build_mascot.py:433-473 | ends with pairwise disjoint one-colour rectangles that tile exactly the cells without negative coordinates, no two of which stack, none cutting a run |
| `MergeRuns.Runs` | tools/mascot/build_mascot.py:436-450 | the runs are maximal, in reading order, disjoint and cover the cells |
| `MergeRuns.Merge` | tools/mascot/build_mascot.py:451-473 | greedy growth from any such runs gives a tiling in which no rectangle can be extended by another |
| `MergeRuns.FindBelow` | tools/mascot/build_mascot.py:458-467 | the search finds a free run right below if there is one, although it stops at the first run too far down |
| `MergeRuns.RowTaken` | tools/mascot/build_mascot.py:470-471 | taking a run keeps the correspondence between runs and rows of rectangles |
| `MergeRuns.RectSettled` | tools/mascot/build_mascot.py:453-472 | once the search finds nothing no later rectangle stacks on this one |
| `MergeRuns.MergedTiles` | tools/mascot/build_mascot.py:451-473 | where every run is taken the rectangles tile the cells |
| `Raster.Group` | tools/mascot/build_mascot.py:499-501 | each colour has its rectangles in their order, and no colour without one is there |
| `Raster.RasterRects` | tools/mascot/build_mascot.py:517-539 | stops exactly where two rectangles share a cell, and otherwise covers their cells in their colours |
| `Raster.RasterUndoesMerge` | tools/mascot/build_mascot.py:433-539 | merging, grouping by colour in any order of the colours, and rasterising gives the cells back |
| `Raster.ListedDisjoint` | tools/mascot/build_mascot.py:499-506 | grouping keeps disjoint rectangles disjoint |
| `Raster.Matches` | tools/mascot/build_mascot.py:542-553 | accepts exactly the raster in which every transparent cell of the grid is uncovered and every other has its colour of the palette |
| `Raster.DrawAndCheck` | tools/mascot/build_mascot.py:476-553 | for every rectangular grid whose colours are in the palette the final check never fires |
| `FloodFill.Flood` | tools/mascot/build_mascot.py:145-161 | the queue loop reaches exactly the 8-connected component of its seed, each pixel once |
| `FloodFill.Scan` | tools/mascot/build_mascot.py:142-163 | the components found are the components of the image, and the best kept is a largest of them |
| `FloodFill.BodyBox` | tools/mascot/build_mascot.py:136-167 | the tight bounding box of a component of maximum size; no box exactly where no pixel is opaque |
| `FloodFill.BestIsLargest` | tools/mascot/build_mascot.py:162-163 | when all opaque pixels are marked no component is larger than the best |
| `FloodFill.ComponentsMeet` | tools/mascot/build_mascot.py:136-163 | components that share a pixel are equal, so the image splits into them |
| `FloodFill.FloodClosed` | tools/mascot/build_mascot.py:148-161 | an empty queue means that the component is complete |
| `FloodFill.Corners` | tools/mascot/build_mascot.py:164-167 | least and greatest coordinates form the tight box |
| `ExtractChecks.AfterCancelIsExact` | packages/documents-accept/src/extract-checks.ts:185-199 | the table holds exactly the statuses a cancel can answer when worker steps come between the read and the cancel |
| `ExtractChecks.CheckCancelledStays` | packages/documents-accept/src/extract-checks.ts:209-240 | against a server of the documented rules with a racing worker its only possible problem is the wait that runs out, and that is found exactly if the job is left still cancelling, never for one that had ended before; otherwise the job is left queued at attempt + 1, or the check is skipped for one that succeeded |
| `ExtractChecks.JudgeCancel` | packages/documents-accept/src/extract-checks.ts:209-222 | whatever a cancel is answered with: nothing is found wrong exactly if the attempt stays and the status is one a cancel may make of it after any steps of the worker |
| `ExtractChecks.CheckReplay` | packages/documents-accept/src/extract-checks.ts:125-142 | likewise its only possible problem is the wait that runs out, found exactly if the job is left moving at its old attempt; otherwise a job that ended failed or interrupted is queued at attempt + 1 and any other left as it ended |
| `ExtractChecks.JudgeReplay` | packages/documents-accept/src/extract-checks.ts:125-142 | whatever the same request is answered with: nothing is found wrong exactly if that is what the rule makes of the job that had ended |
| `ExtractChecks.Revive` | packages/documents-accept/src/extract-checks.ts:225-236 | from the cancel on: the wait runs out exactly if the job is left cancelling, and else the replay leaves it cancelled and the retry queues its next attempt |
| `ExtractChecks.JudgeReplayed` | packages/documents-accept/src/extract-checks.ts:225-230 | whatever the request of a cancelled job is answered with: nothing is found wrong exactly if the job is left as it is |
| `ExtractChecks.JudgeRetried` | packages/documents-accept/src/extract-checks.ts:231-234 | whatever a retry is answered with: nothing is found wrong exactly if the job is queued as its next attempt |
| `ExtractChecks.CheckRerunKey` | packages/documents-accept/src/extract-checks.ts:148-183 | finds nothing wrong if there is a question to ask differently, and exactly the taken key if there is none; it starts one job and leaves that stopping, stopped or done |
| `ExtractChecks.AskAgain` | packages/documents-accept/src/extract-checks.ts:148-183 | exactly one job is started: the same key again is that job, and the key with another request is refused |
| `ExtractChecks.JudgeFirst` | packages/documents-accept/src/extract-checks.ts:163-167 | whatever the first request under a new key is answered with: nothing is found wrong exactly if it is a new job still to be run |
| `ExtractChecks.JudgeAgain` | packages/documents-accept/src/extract-checks.ts:168-180 | the same request under the key has to be that job again and another one has to be refused, whatever is answered |
| `ExtractChecks.CancelAll` | packages/documents-accept/src/extract-checks.ts:67-71 | every job started is stopping, stopped or done, whatever was found before |
| `ExtractChecks.WaitForJob` | packages/documents-accept/src/checks.ts:90-100 | answers the job as the last poll found it, and says that it has ended exactly if it has; the worker is all that moves jobs meanwhile |
| `ExtractChecks.OtherDiffers` | packages/documents-accept/src/extract-checks.ts:148-183 | the changed request differs exactly if there is a question |
| `JobServer.Server.Cancel` | packages/api-client/src/openapi.d.ts:1301-1316 | the route's rule over the status the worker has led to; no other job is touched |
| `JobServer.LeadsExactly` | packages/documents-accept/src/extract-checks.ts:185-199 | what the worker may have done in between is what none, one or two of its steps lead to |
| `JobServer.Server.Retry` | packages/api-client/src/openapi.d.ts:1317-1331 | what the worker has made of the job is restarted as its next attempt exactly if it is failed, interrupted or cancelled, and else refused and left as it is |
| `JobServer.Server.Extract` | packages/api-client/src/openapi.d.ts:1400-1410 | a request known by its business key or rerun key is a replay of its job, a used key with another request and a rerun without a key are refused, and any other request is a new job under its key |
| `JobServer.Server.Replay` | packages/api-client/src/openapi.d.ts:1400-1410 | a failed or interrupted job is queued once more as the next attempt, any other is answered as it is |
| `Inbound.InboundBridge.Run` | packages/nostr-bridge/src/inbound.ts:58-263 | any interleaving of polls, turns, sessions, runs and replies keeps the invariant, every message ever enqueued was in a row that dispatch allowed from a listed sender, and the calls to the agent and the runs begun grow by exactly what each event asks and begins |
| `Inbound.InboundBridge.Step` | packages/nostr-bridge/src/inbound.ts:58-263 | one event: where every run then stands, which call is made and which run begins, which session is kept, and which ids are known: an id leaves `seen` only after at least MAX_SEEN later insertions or by a throw of its own processing, and then exactly |
| `Inbound.InboundBridge.Handle` | packages/nostr-bridge/src/inbound.ts:58-76 | an unlisted sender or a known id changes nothing at all; a fresh message is remembered and hung on the promise of its sender's last run |
| `Inbound.InboundBridge.RememberSeen` | packages/nostr-bridge/src/inbound.ts:80-90 | `seen` stays within MAX_SEEN, and only ids with that many later insertions leave it |
| `Inbound.InboundBridge.Enqueue` | packages/nostr-bridge/src/inbound.ts:92-99 | the run hangs on the last one of its sender, and is the last from then on |
| `Inbound.InboundBridge.Begin` | packages/nostr-bridge/src/inbound.ts:101-118 | a run whose predecessor has settled begins: the agent is asked for a session exactly if the sender has no usable one, and else for the run |
| `Inbound.InboundBridge.Finish` | packages/nostr-bridge/src/inbound.ts:69-75 | the run settles, which lets the next one of its sender begin; a throw forgets exactly the id of its message |
| `Inbound.InboundBridge.SessionSettled` | packages/nostr-bridge/src/inbound.ts:111-118 | whatever id comes is kept and the run asked for with it; a refusal settles the run as a throw |
| `Inbound.InboundBridge.RunSettled` | packages/nostr-bridge/src/inbound.ts:101-130 | a run that ended is answered and stays deduplicated; one that threw may come again, and so may one whose text is no string, over which `reply` throws |
| `Inbound.InboundBridge.Replied` | packages/nostr-bridge/src/inbound.ts:150-167 | a reply that failed to be sent does not make the processing throw |
| `Inbound.InboundBridge.PollRow` | packages/nostr-bridge/src/inbound.ts:200-263 | a row is handed on exactly if it has a sender, dispatch is on, it is no backlog, and it is fresh; otherwise no state but the log changes |
| `Inbound.InboundBridge.LogFrozen` | packages/nostr-bridge/src/inbound.ts:239-247 | a skipped message is logged exactly if it is not remembered as logged; the memory of that drops its oldest beyond the cap and nothing else |
| `SenderQueues.EarlierSettled` | packages/nostr-bridge/src/inbound.ts:92-99 | a run has begun only if every run of its sender enqueued before it has settled |
| `SenderQueues.OneAtATime` | packages/nostr-bridge/src/inbound.ts:92-109 | two runs of one sender are never going on at once |
| `SenderQueues.BegunAreFirst` | packages/nostr-bridge/src/inbound.ts:92-109 | the runs of a sender that have begun are the first it enqueued |
| `SenderQueues.BeginKeepsOrder` | packages/nostr-bridge/src/inbound.ts:92-99 | the runs of a sender begin in the order they were enqueued, each once |
| `SenderQueues.CallAdded` | packages/nostr-bridge/src/inbound.ts:101-118 | the agent is asked for the runs of a sender in the order they were enqueued, each once |
| `SenderQueues.SomeoneNext` | packages/nostr-bridge/src/inbound.ts:92-99 | with a run waiting and none of its sender going on, the first that waits can begin |
| `SenderQueues.OneSession` | packages/nostr-bridge/src/inbound.ts:111-118 | a usable session is kept exactly if one was made for the sender, and it is the last one made |
| `SenderQueues.SessionMade` | packages/nostr-bridge/src/inbound.ts:111-118 | no other run of the sender waits for a session when one comes, so all but the last made are unusable |
| `SenderQueues.EnqueuedKeeps` | packages/nostr-bridge/src/inbound.ts:92-99 | `queues` leads to the last run of every sender, and each run hangs on the one before it |
| `Inbound.AskedTwice` | packages/nostr-bridge/src/inbound.ts:111-118 | for any two messages of a sender: where the first session has an empty or no id, the second has the agent asked for another |
| `Inbound.RunTwice` | packages/nostr-bridge/src/inbound.ts:120-130 | for any message with an id: a completed run whose text is no string is not answered, and the message is run again |
| `Inbound.OldestIsOld` | packages/nostr-bridge/src/inbound.ts:80-90 | the k-th id in `seen` was inserted at least k insertions after the first |
| `Inbound.RememberedKeeps` | packages/nostr-bridge/src/inbound.ts:80-90 | an insertion keeps the bound, and drops only what has been outlived |
| `Inbound.WithoutKeeps` | packages/nostr-bridge/src/inbound.ts:69-75 | a deletion keeps the order of insertion and drops that id alone |
| `ServiceManager.Manager.ShutDown` | packages/node-daemon/src/boxlite-service.ts:173-180 | from any state an interleaving can lead to, of the boxes built until `stopAll` exactly those are not told to stop that are lost, whatever happens later: whose start threw and whose module had another box built by a later start before everything was told to stop; none of a module all of whose configs had a health path that makes an address and a command that is a list |
| `ServiceManager.Manager.Run` | packages/node-daemon/src/boxlite-service.ts:89-180 | any interleaving keeps: a box is neither tracked, registered nor told to stop exactly if it is lost; `starting` leads to every start that is not over; ports are distinct and within 18000..18999; nothing is taken back |
| `ServiceManager.Manager.Starting` | packages/node-daemon/src/boxlite-service.ts:89-161 | a registered module answers the port its own box was built on, one with a start going on shares that promise, and neither changes anything; else a start is begun: with the next port, a box that is tracked and built on that port, and its command or its health to wait for |
| `ServiceManager.PortsOfTheirOwn` | packages/node-daemon/src/boxlite-service.ts:25-34 | every registered module has the port its own box was built on, and no two the same |
| `ServiceManager.Manager.Register` | packages/node-daemon/src/boxlite-service.ts:148-150 | the entry has the port and the box of its own start |
| `ServiceManager.OneInFlight` | packages/node-daemon/src/boxlite-service.ts:153-161 | of the starts of a module, each a record of its own, at most one is not over |
| `ServiceManager.Manager.Build` | packages/node-daemon/src/boxlite-service.ts:111-119 | the box is tracked as soon as it is built, for the start that was begun |
| `ServiceManager.Manager.Finally` | packages/node-daemon/src/boxlite-service.ts:154-161 | the entry that the end of a promise deletes is always its own |
| `ServiceManager.Manager.AllocatePort` | packages/node-daemon/src/boxlite-service.ts:25-34 | a port never given before, within the pool, or none exactly when the pool is used up |
| `ServiceManager.Manager.Executed` | packages/node-daemon/src/boxlite-service.ts:124-138 | a failed command gives up its box: told to stop and no longer tracked |
| `ServiceManager.Manager.Checked` | packages/node-daemon/src/boxlite-service.ts:140-151 | a healthy box is registered with the port it was built on, an unhealthy one told to stop; where the health path makes no address the start throws, and its box stays tracked and untold |
| `ServiceManager.Manager.Thrown` | packages/node-daemon/src/boxlite-service.ts:124-140 | a start that throws outside of any `try` is over and leaves its box tracked |
| `ServiceManager.Manager.Stop` | packages/node-daemon/src/boxlite-service.ts:163-171 | the registered box is told to stop and leaves the registry; a start in flight goes on |
| `ServiceManager.Manager.StopAll` | packages/node-daemon/src/boxlite-service.ts:173-180 | exactly the tracked and the registered boxes are told to stop besides those told before, and so of all boxes built exactly the lost ones are not |
| `ServiceManager.FirstBoxLost` | packages/node-daemon/src/boxlite-service.ts:78-140 | a module whose health path makes no address, started twice: `stopAll` tells the second box alone |
| `ServiceManager.WellformedIsKept` | packages/node-daemon/src/boxlite-service.ts:89-151 | no box of a module is lost all of whose starts had a well-formed config, which a caller can check before the call |
| `ServiceManager.LostOn` | packages/node-daemon/src/boxlite-service.ts:89-180 | when one more thing happens just those boxes become lost of whose module a box is built after their own start threw, with no shutdown between |
| `ServiceManager.BuildKeeps` | packages/node-daemon/src/boxlite-service.ts:111-119 | building a box keeps the invariant, the box it replaces being lost from then on |
| `CallbackChannel.Channel.Receive` | examples/node-module/index.js:97-132 | however the stream is cut into chunks, its non-empty complete lines are handed on in order up to the first fatal one, whether there is one is a property of the stream, the buffer is its newline-free tail, and the calls are as the lines handed on settle them |
| `CallbackChannel.Channel.OnData` | examples/node-module/index.js:97-107 | one chunk: it throws exactly if a line it completes is `null` or the first answer to a pending call with an error that none can be made of, and stops at the first such line |
| `CallbackChannel.Channel.OnLine` | examples/node-module/index.js:109-132 | a response without an error resolves the pending call of its own id with its result, one with a usable error rejects it, and nothing else settles any; it throws exactly at `null` and at an unusable error for a pending call, which is then neither pending nor settled |
| `CallbackChannel.Channel.OnClose` | examples/node-module/index.js:134-150 | everything pending is rejected, nothing settled changes, and nothing is pending afterwards |
| `CallbackChannel.Channel.Call` | examples/node-module/index.js:153-161 | an id never issued before, pending from then on; on a closed channel a rejection and no change |
| `CallbackChannel.LinesOfParts` | examples/node-module/index.js:97-107 | cutting a stream anywhere changes no line if the tail of the first part is kept |
| `CallbackChannel.LinesOfWritten` | examples/node-module/index.js:97-107 | lines written with their newlines come back, but for the empty ones, and what has no newline yet is the tail |
| `CallbackChannel.StreamIsWritten` | examples/node-module/index.js:97-107 | every stream is lines written so, and a tail |
| `CallbackChannel.ToldByFirstAnswer` | examples/node-module/index.js:109-132 | over any lines a pending call is taken by the first response with its own id: resolved with its result if that has no error, rejected with it if it is usable, and else lost; a settled call is never settled again |
| `CallbackChannel.FirstThrowMeans` | examples/node-module/index.js:109-132 | the first line at which `_onLine` throws is the first that is `null` or a first answer with an unusable error |
| `CallbackChannel.NullErrorIsLost` | examples/node-module/index.js:126-128 | with call 1 pending, a response to it with a null error throws and leaves the call neither pending nor settled |
| `CallbackChannel.DecimalIsUnique` | examples/node-module/index.js:155-155 | different counters are different ids |
| `CallbackChannel.DecimalMeans` | examples/node-module/index.js:155-155 | an id is the decimal digits of its counter, without a leading zero |
| `CallbackChannel.TailHasNoNewline` | examples/node-module/index.js:97-107 | the buffer kept is the end of the stream and holds no newline |
| `ReviewMerge.ApplyReview` | packages/documents-accept/src/review.ts:154-178 | a place is marked if and only if some decision names it, on the extraction the report is of, with a verdict that may be found of it, and no earlier one names it; every other decision is listed with its reason in order; and the totals, coverage points and propositions are those counted from the marks, a person's verdict before the mechanical one |
| `ReviewMerge.ReviewIsCounted` | packages/documents-accept/src/review.ts:94-112 | of every merged report: correct, for review, missing, conflict, gold, covered and unlocated are the numbers of fields and anchors so marked, or so found where unmarked; the critical lists name the wrong and the waiting ones in order; and each coverage point is what the first fields of its keys are found to be |
| `ReviewMerge.DecisionsDecide` | packages/documents-accept/src/review.ts:73-93 | a place is marked if and only if the first decision on it, among those on its extraction, has a verdict that may be found of it, and then with that verdict, reviewer and note |
| `ReviewMerge.WhyMeans` | packages/documents-accept/src/review.ts:160-170 | no sample, another extraction, decided twice: the reason given is the first that holds |
| `ReviewMerge.WhyNoPlace` | packages/documents-accept/src/review.ts:73-93 | which of the other reasons is given, and exactly when |
| `ReviewMerge.TableMeans` | packages/documents-accept/src/review.ts:64-68 | the table by status says, verdict by verdict, of which fields each may be found |
| `ReviewCounts.TotalsMean` | packages/documents-accept/src/summary.ts:40-63 | every number of the totals counts the fields or anchors it is named for, over the samples themselves, and the two lists name theirs in order |
| `ReviewCounts.VerdictMeans` | packages/documents-accept/src/summary.ts:76-76 | the verdict of a key is how the first field of that key in the samples of that name is found |
| `ReviewCounts.CoverageMeans` | packages/documents-accept/src/summary.ts:75-84 | a point has passed exactly if each of its keys has a first field found correct, and has failed exactly if some key has one found neither correct nor for review, or none |
| `ReviewCounts.FollowsMeans` | packages/documents-accept/src/review.ts:142-147 | a report whose numbers follow from its fields counts its own verdicts so |
| `Counting.FilterCounts` | packages/documents-accept/src/summary.ts:40-63 | the length of a filtered list of lists is the number of places that pass |
| `ReviewMerge.ReadUndoesReview` | packages/documents-accept/src/review.ts:131-177 | a merged report read back is the report without marks; of a report as the harness writes it, that report |
| `ReviewMerge.MergeAndRead` | packages/documents-accept/src/review.ts:131-178 | for a report of the harness and any review, reading the merged report gives the report back |
| `ReviewMerge.LaterReviewReplaces` | packages/documents-accept/src/review.ts:151-178 | merging a second review into a merged report gives what merging it into the first report gives |
| `ReviewMerge.MergeTwice` | packages/documents-accept/src/review.ts:151-178 | merging two reviews one after the other is merging the second alone |
| `ReviewMerge.MergeIsUnique` | packages/documents-accept/src/review.ts:154-178 | report and review decide the merged report |
| `ReviewMerge.AppliedAndUnused` | packages/documents-accept/src/review.ts:156-171 | applied and unused decisions are all decisions, and the applied are as many as the places marked |
| `ReviewMerge.HitOnce` | packages/documents-accept/src/review.ts:161-165 | no two decisions count for one place |
| `ReviewMerge.DenominatorsStay` | packages/documents-accept/src/review.ts:175-177 | no review moves the number of fields, of missing and conflict fields, or of gold anchors |
| `ReviewMerge.PlaceIgnoresMarks` | packages/documents-accept/src/review.ts:73-93 | where a decision belongs does not depend on what was decided before |
| `ReviewReport.Unreviewed` | packages/documents-accept/src/review.ts:114-120 | the loops delete every mark and change nothing else |
| `ReviewReport.BareKeeps` | packages/documents-accept/src/review.ts:114-120 | without its marks a sample keeps everything else, and nothing in it is marked |
| `ReviewReport.ReadReport` | packages/documents-accept/src/review.ts:131-149 | answers the report without marks exactly if its totals and coverage points follow from its fields |
| `ReviewReport.MarkedMeans` | packages/documents-accept/src/review.ts:80-92 | a setter changes the mark of its own place only |
| `ReviewReport.MarksDecide` | packages/documents-accept/src/review.ts:114-120 | two samples alike without marks and with the same marks are the same |
| `Summary.SummaryKeepsDenominators` | packages/documents-accept/src/summary.ts:40-69 | two scorings of the same questions have the same denominators |
| `Summary.CountsAddUp` | packages/documents-accept/src/summary.ts:67-70 | no field and no gold anchor is lost between the answer and the context totals, or counted in both |
| `Summary.TotalsBounded` | packages/documents-accept/src/summary.ts:40-64 | no count passes what it is a count of |
| `WorstAnswer.ScoreKey` | packages/documents-accept/src/run.ts:79-82 | the first answer that is wrong, or where none is the first that is for review, or else the first; and anchors such that no answer with gold anchors covers a smaller fraction of them, and of those with the same fraction none has more gold |
| `WorstAnswer.FewerMeans` | packages/documents-accept/src/run.ts:73-76 | comparing without dividing is comparing the fractions covered, and of equal ones the golds |
| `WorstAnswer.OrderIsNothing` | packages/documents-accept/src/run.ts:68-84 | any permutation of the answers gives the same verdict rank and the same covered and gold counts |
| `WorstAnswer.FewerTransitive` | packages/documents-accept/src/run.ts:73-76 | the cross-multiplied comparison is transitive, empty anchor lists included |
| `WorstAnswer.FewerTotal` | packages/documents-accept/src/run.ts:73-76 | of two different shares exactly one is below the other: a strict total order |
| `Candidates.CompareCandidates` | packages/documents-accept/src/score.ts:78-86 | each note stands exactly if one side has a form the other lacks, or shares one in name only |
| `Candidates.CompareTwice` | packages/documents-accept/src/score.ts:78-86 | empty exactly if both sides have the same forms and every form an overlapping pair; the same for the candidates in any order |
| `Candidates.NothingNoted` | packages/documents-accept/src/score.ts:78-86 | the three notes together are the failure to agree |
| `Candidates.OverlapsMeans` | packages/documents-accept/src/score.ts:35-38 | two values overlap exactly if neither normalized text is empty and one is the other with something before and after it |
| `Candidates.OrderIsNothing` | packages/documents-accept/src/score.ts:55-75 | reordering either side changes no form and no match |
| `Candidates.Groups` | packages/documents-accept/src/score.ts:55-64 | each form that occurs with its candidates in order, and no other |
| `Candidates.MatchedForms` | packages/documents-accept/src/score.ts:69-75 | the forms that match are among the shared ones, and are those with an overlapping pair |
| `Paging.Pages` | packages/documents-accept/src/checks.ts:45-57 | against any server at most MAX_PAGES + 1 requests are made, each with the next cursor of the last, no cursor twice; which answer ends it and how; the pages handed on are those before |
| `Paging.ListIsPutTogether` | packages/documents-accept/src/checks.ts:40-57 | a list in parts under different cursors is read whole and in order if it has at most MAX_PAGES parts, and refused as too many otherwise |
| `Upload.SendChunks` | packages/documents-accept/src/checks.ts:112-126 | with a conforming new upload the loop finds nothing wrong, leaves the server exactly the bytes, and sends the least number of chunks |
| `Upload.SendChunk` | packages/documents-accept/src/checks.ts:113-125 | one turn: the chunk is taken and the answer passes every check |
| `Upload.ProblemsMean` | packages/documents-accept/src/checks.ts:117-125 | whatever a chunk is answered with: nothing is found wrong exactly if it is the upload announced with the bytes sent so far |
| `Upload.UploadServer.Append` | packages/api-client/src/openapi.d.ts:1241-1254 | the route's rules in their order: exactly which chunks append, that a replay changes nothing, and that nothing received ever changes |
| `LogThrottle.Poller.Outage` | packages/nostr-bridge/src/main.ts:144-171 | what a run of failures logs is determined by their times; for N of them at most log2 N + 1 + elapsed/MAX_LOG_GAP lines, and every failure less than MAX_LOG_GAP after a line |
| `LogThrottle.Poller.Failed` | packages/nostr-bridge/src/main.ts:159-171 | a failure is logged exactly if its count is a power of two or the gap has passed |
| `LogThrottle.FewLines` | packages/nostr-bridge/src/main.ts:147-171 | the bound on the lines, over the times of the failures |
| `LogThrottle.NoneMissing` | packages/nostr-bridge/src/main.ts:147-171 | no failure comes MAX_LOG_GAP or more after the last line before it |
| `LogThrottle.PowersLogged` | packages/nostr-bridge/src/main.ts:163-164 | the first, second, fourth, eighth failure and so on are logged whenever they come |
| `LogThrottle.TestIsExact` | packages/nostr-bridge/src/main.ts:163-163 | the bitwise test holds of the powers of two and nothing else |
| `Scrub.ScrubbedPayload` | packages/nostr-bridge/src/protocol.ts:76-90 | every string value at any depth is cut into markers at word boundaries, each as long as it can be, and characters at which none begins, and just the markers are replaced; no value of the result holds a marker; keys, lengths, order and non-strings are unchanged; a clean payload is left alone |
| `Scrub.ScrubbedPieces` | packages/nostr-bridge/src/protocol.ts:74-77 | whatever is kept of a string is kept as it is and in order, and each marker is one `[redacted]` |
| `Scrub.Cut` | packages/nostr-bridge/src/protocol.ts:74-77 | every string is cut so |
| `Scrub.MarkerLengthMeans` | packages/nostr-bridge/src/protocol.ts:74-74 | the match is the longest beginning that is `module:` or `tool:` in any case and a name |
| `Scrub.ScrubTwice` | packages/nostr-bridge/src/protocol.ts:76-90 | scrubbing twice is scrubbing once |
| `Scrub.ScrubbedClean` | packages/nostr-bridge/src/protocol.ts:74-77 | after leftmost greedy replacement no marker begins anywhere in the string |
| `Scrub.NoNewMarker` | packages/nostr-bridge/src/protocol.ts:74-77 | a replacement makes no marker of what stood before it |
| `Scrub.CleanLeftAlone` | packages/nostr-bridge/src/protocol.ts:74-77 | a string without markers is unchanged |
| `Scrub.CleanMeans` | packages/nostr-bridge/src/protocol.ts:74-77 | clean means: at no word boundary does a marker stand |

## Left out

- ExtractChecks.WaitForJob: the deadline is a number of polls, not a clock.
- LogThrottle.TestIsExact: counts are unbounded here; the 32-bit conversion of `&` matters only from the 2147483648th failure on.
- Descendants.Descendants: a bound on the turns stands for looking at a search that does not end.
- FloodFill.BodyBox: the exception on an image without an opaque pixel is the answer `None`.
- Raster.RasterUndoesMerge: speaks of rectangles in groups; the SVG text, its parser, the outline layer and the alphabetic order of the colours are not modelled (any order of the colours is allowed).
- CallbackChannel.Channel.OnData: chunks are cut between characters, because the original decodes each chunk by itself.
- CallbackChannel.Channel.Call: its parameters can be serialised; cyclic ones would throw after their id is used up.
- ServiceManager.Manager.Executed: the `stop` of a box is a call that answers; one that throws at once is not modelled.
- Worktree.Tree.Say: that a message is lost halfway without an error, and the texts themselves, are not modelled.
- Inbound.InboundBridge.Run: a poll is its rows in any order, and a throw forgets its id in the step in which its run settles; the check that the liveness probe is ready, the text of replies and envelopes are not modelled.
- ReviewMerge.ApplyReview: the clone is a value updated in a loop, so aliasing inside the clone is not captured; `readReview`, the shape test of `readReport` and the propositions' texts are not modelled.
- Worktree.Tree.Mutate: the verdict from the test output is a parameter, and so is whether the baseline admits the file.
- Worktree.Tree.CmdBaseline: the contents of the baseline and its fingerprints are not modelled, and whether the tests are all green is a parameter.
- RustScanner.Source.Scan: the `stop` argument of `_scan`, which only ends the scan early, is not modelled.
- Inject.Inject: works on text; the UTF-8 decoding before it is not modelled.
- DepInfo.ParsedPrinted: ends with nothing or a blank line; the single newline is `DepInfo.ParsedBeforeNewline`.
- Real file descriptors, `fsync`, the lock file, signals other than their arrival, the process supervisor and the sweep.
- `parseStrict`, `validateState` and `daemonBearer`: one-branch checks on an accepted object.
- `scoreField` and `compareValues`: tables; `fieldAnchors`, `scoreAnchors` and `cover`: comparisons of places and quotes.
- `downsample` and the drawing of overlays.
- HTTP, retries on 503, health polling, JSON serialisation of requests.
- `makeContent` beyond its payload: fields copied one by one.
