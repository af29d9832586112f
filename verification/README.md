# The browser client's core, modelled and proved

This project models the plain state machines, caches, parsers and coordinate arithmetic under
`client/src/core/` (and the patch numberer of `client/src/views/changes.ts`), and proves what each is for
over every input or every run. `dafny verify dfyconfig.toml` checks all of it.

Each source file has its own module, in its own form: what the source updates in place is a class whose
methods are proved to take the step a pure model gives (`Asking`, `GapWalk`, `Belief`), its loops are
methods with invariants proved against a specification function, and its expressions are functions. The
theorems about whole runs are stated over the pure steps.

- **The answer cache** - `Staleness`, `AskingModel` (one step at a time), `AskingIndex` (the index, the cap and
  the timer in every run), `AskingFresh` (freshness, in exactly which runs), `AskingAlone` (a condition for it the
  page can see), `AskingSuperseded` (a run without it), `AskingPairs` (pending asks and awaited slots), `Asking` (the
  slots on the heap, shared with watchers and timers).
- **The gap walk** - `GapWalkModel`, `GapWalk`, `GapWalkRuns`.
- **Document coordinates and saving** - `CodeUnits` (UTF-16, UTF-8, folded line breaks), `DocumentPos`,
  `DocumentPlaces`, `Saving`, `SavingShown`.
- **The session tree** - `SessionForest` (the recursive walk and the plain preorder), `SessionTree` (the loops).
- **Patch numbers** - `ChangeNumbers`.
- **Save receipts** - `DocumentSave`. **Belief** - `BeliefFolds`, `BeliefHalts`, `Belief`. **Windows and bytes** -
  `DocumentWindows`, `Base64`, `DocumentBytes`. **Reply laying** - `Replying`. **The link** - `Link`.
  **The live tail** - `LiveOutput`. **The route** - `Grammars`, `Percents`, `Route`, `RouteParts`, `RouteTrip`,
  `RouteViews`. Shared: `Splitting`, `Decimals`, `OrderedMaps`.

Where the code falls short of what its documentation says, the model keeps the code, shows the input, and proves
exactly when it does meet it:

- A question out of patience whose slot is asked again clears the slot's mark; the first question's late answer can
  then call itself fresh (`AskingSuperseded`). The cache is fresh throughout a run exactly when no answer lands past
  a record told in between (`AskingFresh.FreshIffHarmless`).
- With every older slot pinned, the slot just made is the one dropped (`AskingIndex.SlotKeptIffRoom`), and its
  question is pending for no slot (`AskingPairs.PairedIffRoomy`).
- A refused gap page leaves the walk waiting until the next welcome (`GapWalkRuns.RefusalStalls`,
  `GapWalkRuns.WalksUnlessStopped`).
- A save can fold a lone carriage return into a line feed it was apart from, and a version without the mark its
  encoding states drops one typed in front; exactly the others are saved as shown (`SavingShown`).
- A stretch replaced by itself is unsaved work although the texts agree (`DocumentSave.RunIsHonest`).
- A halt from a page of a gap, folded after a later one of another scope, stays off the shut list
  (`BeliefHalts.HaltedRightIffInTime`).
- A `\ No newline` line of a patch is counted as a line of both files (`ChangeNumbers.MarkerMisnumbers`).
- An older version, opened by its digest and exactly `EDITABLE_BYTES_MAX` bytes long is never known to be whole
  (`DocumentWindows.GatheringFinishes`).
- A live tail bounded below one line counts one line more than once (`LiveOutput.NoCapMiscounts`).
- A building whose own name ends in `catalog` below another segment is read back as the other one's catalog page
  (`RouteViews.RoundTrip`).

What the page talks to is the environment, and what is asked of it is written out as a predicate: question ids are
minted once, and an answer's position is past every record told before the question went out and never goes back for
one slot (`AskingFresh.Honest`); the stream declares what it skips, pages are truthful and their cursor moves on, a change of ledger is named (`GapWalkRuns.Fair`); windows and bytes answered for a
version are that version's own (`DocumentWindows.Truthful`, `DocumentBytes.Spells`); the page saves only unsaved work
(`DocumentSave.Allowed`). The clock, the timers, ids minted and whether a send went out are arguments of the steps.

## Model

| member | source | states |
|---|---|---|
| AskingFresh.FreshIffHarmless | client/src/core/asking.ts:248-405 | Over every run of asks, refreshes, subscriptions, timers, records, answers, refusals, sweeps and reconnects with an honest city and link, the cache full or not: no held answer is ever called fresh (neither stale nor in flight) while a record told that reaches it is missing from it, if and only if no answer lands past a record told after its question went out and before its slot's mark was last reset, on a slot that awaits nothing else and whose mark lets go. |
| AskingAlone.AloneIsFresh | client/src/core/asking.ts:248-405 | A condition the page itself can see: where no slot is asked, or made again, while an earlier question of its own is unanswered, no held answer is ever called fresh that a record told is missing from. |
| AskingPairs.PairedIffRoomy | client/src/core/asking.ts:248-405 | Over every run from an empty cache with ids minted once, whatever is answered: pending asks and in-flight slots correspond one to one throughout, if and only if every question that goes out finds its slot or room for one. |
| AskingPairs.NextPairsIff | client/src/core/asking.ts:188-407 | The same at each step. |
| AskingFresh.LandsFreshIff | client/src/core/asking.ts:345-370 | The same at one landing, in any state such a run can reach: a truthful answer, in time, late or superseded, leaves every slot honest if and only if nothing was told in between. |
| AskingFresh.FreshInEveryRun | client/src/core/asking.ts:248-405 | In every such run in which none does: a held answer neither stale nor in flight has its `asOf` past every record passed to `invalidate` that reaches it. |
| AskingFresh.StepKeeps | client/src/core/asking.ts:328-405 | The invariant behind both, kept by each single step: every record told and every slot it reaches - in the answer, or keeping the slot stale, or told before the mark was reset and then covered by the question awaited. |
| AskingFresh.StepIsNext | client/src/core/asking.ts:328-405 | The run with its history is the cache's own step: the bookkeeping adds nothing and hides nothing. |
| AskingFresh.DispatchingKeeps | client/src/core/asking.ts:248-261 | Sending a question for a slot no worse than the held one keeps every slot accounted for: all told so far stands before the question. |
| AskingFresh.AnswerKeeps | client/src/core/asking.ts:345-370 | A truthful answer or a refusal, in time or late, keeps every slot accounted for. |
| AskingFresh.SweepKeeps | client/src/core/asking.ts:224-246 | Giving up on overdue questions keeps every slot accounted for. |
| AskingFresh.RecordKeeps | client/src/core/asking.ts:372-386 | A record told marks or finds covered every slot it reaches. |
| AskingFresh.ResumingKeeps | client/src/core/asking.ts:393-405 | Clearing the queues and asking again for what is watched keeps every slot accounted for. |
| AskingFresh.FoundKeeps | client/src/core/asking.ts:271-311 | Finding, making and evicting slots keeps every slot accounted for. |
| AskingSuperseded.SupersededAnswerMisleads | client/src/core/asking.ts:248-370 | A concrete run with an honest city and link in which such an answer makes a slot look fresh although a record told before is not in it: the mark that would have kept it stale was reset by the newer question. |
| AskingIndex.IndexIsScan | client/src/core/asking.ts:372-386 | Walking the by-name index marks exactly the slots that judging every held answer on its own would mark. |
| AskingIndex.NextKeeps | client/src/core/asking.ts:188-407 | Every step keeps `held`, `parsed` and `byName` naming the same keys, never more than `HELD_CAP` held, the patience timer armed no later than the first question due, and drops no slot that is watched, in flight or waiting on its timer. |
| AskingIndex.EveryRunSound | client/src/core/asking.ts:188-407 | In every run from an empty cache, honest or not, the index names what is held, no more than the cap is held, and the timer is armed for the first question due. |
| AskingIndex.SlotKeptIffRoom | client/src/core/asking.ts:271-311 | The slot handed out is the cache's own if and only if it was held, the cache was below its cap, or some older slot was not pinned; otherwise the slot just made is the one dropped. |
| AskingIndex.SlotForKeeps | client/src/core/asking.ts:271-311 | Finding or making a slot changes no other slot, drops no pinned one, and touches no queue or timer. |
| AskingIndex.SweepClears | client/src/core/asking.ts:224-246 | After a sweep no overdue question is pending, every other one is untouched, and the timer is armed for the first of those. |
| AskingIndex.EarliestIsFirst | client/src/core/asking.ts:212-217 | The due time the timer is set for is no later than any pending question's. |
| Asking.Asking.Watch | client/src/core/asking.ts:212-217 | Sets the one timer for the first question due, or leaves it. The heap state after it is exactly the step `AskingModel` gives. |
| Asking.Asking.Dispatch | client/src/core/asking.ts:248-261 | Sends at most one question for a slot and records it, on a slot the full cache may already have dropped. The heap state after it is exactly the step `AskingModel` gives. |
| Asking.Asking.DropLeastRecent | client/src/core/asking.ts:302-311 | Drops the first slot in order of use that nothing holds open, and its index entries. The heap state after it is exactly the step `AskingModel` gives. |
| Asking.Asking.SlotFor | client/src/core/asking.ts:271-300 | Finds a slot and puts it last in order of use, or makes one and evicts; returns the slot object itself. The heap state after it is exactly the step `AskingModel` gives. |
| Asking.Asking.Ask | client/src/core/asking.ts:328-332 | Finds the slot and asks when it is stale. The heap state after it is exactly the step `AskingModel` gives. |
| Asking.Asking.Refresh | client/src/core/asking.ts:334-340 | Marks the slot stale for good until an answer asked from now on, and asks. The heap state after it is exactly the step `AskingModel` gives. |
| Asking.Asking.Watching | client/src/core/asking.ts:315-326 | Counts subscribers on the slot object, held or not. The heap state after it is exactly the step `AskingModel` gives. |
| Asking.Asking.PaceOver | client/src/core/asking.ts:263-269 | The pace timer fires: asks again when stale and watched. The heap state after it is exactly the step `AskingModel` gives. |
| Asking.Asking.SweepOne | client/src/core/asking.ts:227-244 | One overdue question moves among the late ones, and its slot is stale, reported once, and scheduled when watched. The heap state after it is exactly the step `AskingModel` gives. |
| Asking.Asking.Sweep | client/src/core/asking.ts:224-246 | All overdue questions at one reading of the clock, then the timer again. The heap state after it is exactly the step `AskingModel` gives. |
| Asking.Asking.Answered | client/src/core/asking.ts:345-370 | An outcome under its id lands on the slot that asked, in time or late, or nowhere. The heap state after it is exactly the step `AskingModel` gives. |
| Asking.Asking.Invalidate | client/src/core/asking.ts:372-386 | A record judged once per name marks the slots within its reach; loops over names and keys. The heap state after it is exactly the step `AskingModel` gives. |
| Asking.Asking.Resumed | client/src/core/asking.ts:393-405 | Clears the queues and asks again, slot by slot, for what is stale and watched. The heap state after it is exactly the step `AskingModel` gives. |
| Asking.Asking.Reconnected | client/src/core/asking.ts:388-391 | Marks every slot stale, then resumes. The heap state after it is exactly the step `AskingModel` gives. |
| GapWalkRuns.NoRecordLost | client/src/core/gap_walk.ts:68-203 | In every fair run of live records, lags, pages, refusals, disconnects and welcomes: each record after the last snapshot and up to the stream's position has been folded or stands in a queued gap, records missed across a disconnect are queued to be told of, at most one page is awaited and it starts at the front gap's cursor. |
| GapWalkRuns.StepKeeps | client/src/core/gap_walk.ts:92-203 | Each step keeps it. |
| GapWalkRuns.ResumeQueues | client/src/core/gap_walk.ts:161-176 | A resume queues exactly the missing range up to the head, and queues what was already owed as news. |
| GapWalkRuns.OnlyAnotherLedgerForgets | client/src/core/gap_walk.ts:148-159 | A welcome naming another ledger than the one held leaves no mark, no range, no fold and nothing told; any other welcome keeps the mark and every fold. |
| GapWalkRuns.PageShrinks | client/src/core/gap_walk.ts:115-144 | In every state a fair run reaches, the page awaited takes at least one record off the total owed, and no range but the front one moves. |
| GapWalkRuns.EveryRangeFinishes | client/src/core/gap_walk.ts:92-144 | Between two welcomes of a fair run, whatever streams, lags and answers among the pages: no more pages come than records were owed and lagged, and once as many have come every range is done. |
| GapWalkRuns.WalksUnlessStopped | client/src/core/gap_walk.ts:92-203 | Over every fair run from the start: while a range is owed its next page is on its way, if and only if no page was refused and no question failed to go out since the last welcome. |
| GapWalkRuns.RefusalStalls | client/src/core/gap_walk.ts:194-203 | After a refused page no range moves and nothing is asked, however long records, lags and answers go on, until a welcome. |
| GapWalk.GapWalk.Fold | client/src/core/gap_walk.ts:92-97 | Folds one record and moves the mark to the newest position. The state after it is exactly the step `GapWalkModel` gives. |
| GapWalk.GapWalk.AskGap | client/src/core/gap_walk.ts:99-106 | Asks the front gap's next page unless one is awaited. The state after it is exactly the step `GapWalkModel` gives. |
| GapWalk.GapWalk.Filled | client/src/core/gap_walk.ts:115-144 | Folds a page record by record and moves or drops the front gap. The state after it is exactly the step `GapWalkModel` gives. |
| GapWalk.GapWalk.Renewed | client/src/core/gap_walk.ts:148-157 | Another ledger's name drops everything of the old one. The state after it is exactly the step `GapWalkModel` gives. |
| GapWalk.GapWalk.Resume | client/src/core/gap_walk.ts:161-176 | Queues what the stream missed, or takes a snapshot where too much is owed. The state after it is exactly the step `GapWalkModel` gives. |
| GapWalk.GapWalk.Lagged | client/src/core/gap_walk.ts:180-183 | Queues a range the open stream skipped. The state after it is exactly the step `GapWalkModel` gives. |
| GapWalk.GapWalk.Welcomed | client/src/core/gap_walk.ts:184-193 | Renews, resumes and asks. The state after it is exactly the step `GapWalkModel` gives. |
| GapWalk.GapWalk.Answered | client/src/core/gap_walk.ts:194-203 | Takes its own page's answer and no other. The state after it is exactly the step `GapWalkModel` gives. |
| DocumentPos.Checkpoints | client/src/core/document_pos.ts:192-215 | The loop keeps, of the starts of all characters, the first and then one in each stride. |
| DocumentPos.Nearest | client/src/core/document_pos.ts:217-227 | Binary search finds the last checkpoint a test admits, for every test the checkpoints satisfy as a prefix. |
| DocumentPos.Walked | client/src/core/document_pos.ts:108-125 | The walk from a checkpoint, character by character. |
| DocumentPos.PositionsOf | client/src/core/document_pos.ts:86-105 | The version's editor text, first position and checkpoints. |
| DocumentPos.Converted | client/src/core/document_pos.ts:108-135 | The checkpointed conversion equals the plain walk from the first character for every text, encoding and target, and starts less than `STRIDE` positions before the answer. |
| DocumentPos.BytesAt | client/src/core/document_pos.ts:127-131 | Byte of an editor position, as the plain walk gives it. |
| DocumentPos.EditorAt | client/src/core/document_pos.ts:132-136 | Editor position of a byte, as the plain walk gives it. |
| DocumentPos.Monotone | client/src/core/document_pos.ts:108-135 | Both conversions are monotone. |
| DocumentPos.ConversionsUndo | client/src/core/document_pos.ts:127-136 | At every character's start the two conversions undo each other. |
| DocumentPos.ConversionsSettle | client/src/core/document_pos.ts:127-136 | Any position or byte, however placed, converts to a place the two conversions hold still: converting back and forth again changes nothing. |
| DocumentPlaces.StartMeans | client/src/core/document_pos.ts:108-125 | At every start the walk's numbers are the bytes stored before it, the folded text before it, and the line breaks in that. |
| DocumentPlaces.PlaceOf | client/src/core/document_pos.ts:137-152 | The line is one more than the breaks before the position, the column one more than the characters since the last of them. |
| DocumentPlaces.Utf16At | client/src/core/document_pos.ts:181-190 | The loop finds the offset the walk stops at. |
| DocumentPlaces.Utf16AtStops | client/src/core/document_pos.ts:175-190 | That offset is never inside a character, never past the byte, and no whole character short of it. |
| CodeUnits.DecodedUndoesEncoded | client/src/core/document_pos.ts:86-96 | Bytes of a well-formed text read back as it, in UTF-8 and both UTF-16 orders (section 3 of RFC 3629, section 2.1 of RFC 2781). |
| Saving.TextEdits | client/src/core/document_pos.ts:155-174 | The edits sent, one for each change, at the bytes of its ends, with the version's own line break. |
| Saving.BytesAreTheTexts | client/src/core/document_pos.ts:155-174 | Splicing the byte edits into the version's bytes is splicing the same changes into its text. |
| SavingShown.SavingMeansWhatIsShown | client/src/core/document_pos.ts:86-174 | For every version of whole characters: saving means what the editor shows, for all ordered, apart changes on character starts with inserts free of carriage returns, if and only if the version begins with the mark its encoding states and no lone carriage return of it meets a line feed it was apart from - that is, its line breaks are safe. |
| SavingShown.SafeIsShown | client/src/core/document_pos.ts:155-174 | With safe line breaks the bytes saved fold to the editor's text with the changes applied. |
| SavingShown.UnsafeMerges | client/src/core/document_pos.ts:155-174 | With unsafe ones a concrete change exists whose saved text is not the one shown. |
| SavingShown.UnmarkedDrops | client/src/core/document_pos.ts:86-96 | Without the mark its encoding states, a mark typed in front is dropped where the version is read again. |
| SavingShown.AlikeIsSafe | client/src/core/document_pos.ts:155-174 | A version whose line breaks are all spelled alike is safe. |
| SessionTree.SessionTree | client/src/core/session_tree.ts:55-114 | The explicit-stack loop stops and draws exactly the recursive walk of the forest under the roots and then of every session no root leads to, for every set of parent links, cycles included; each node shows its session, depth, children and whether it was delegated. |
| SessionTree.Turn | client/src/core/session_tree.ts:86-112 | One turn of that loop: a leaving frame, a session seen, an unknown key, or a session opened with its children stacked in order. |
| SessionTree.UnwindStacked | client/src/core/session_tree.ts:104-111 | The frames stacked for a list of children are walked as the list is. |
| SessionTree.Anchored | client/src/core/session_tree.ts:67-74 | The loop finds exactly the sessions some way down from a root leads to. |
| SessionTree.ChildrenByParent | client/src/core/session_tree.ts:59-66 | Children come under their known parent, or among the roots, in the order the sessions came. |
| SessionTree.TreeIsForest | client/src/core/session_tree.ts:55-114 | With unique keys the tree opens with the plain preorder of the forest, cut below collapsed sessions, holding a session exactly when no session above it is collapsed; all that follows hangs below no root. |
| SessionTree.TreeShowsAll | client/src/core/session_tree.ts:55-114 | With nothing collapsed every session is drawn exactly once, even where parent links only go in circles. |
| SessionTree.CollapsedOf | client/src/core/session_tree.ts:36-47 | What a person last said of a session decides; the rest is collapsed by default exactly when it delegated one still known. |
| SessionTree.KeysTellApart | client/src/core/session_tree.ts:20-22 | Two sessions share a key only when they are the same line of the same room. |
| SessionTree.GrowsForest | client/src/core/session_tree.ts:59-66 | With unique keys every session hangs below one parent or is a root. |
| SessionForest.VisitIsPreorder | client/src/core/session_tree.ts:76-114 | The walk that remembers what it has seen is, from the roots of a forest, the preorder that remembers nothing, each session as deep as it has sessions above it. |
| SessionForest.DrawnIffReached | client/src/core/session_tree.ts:76-114 | Over any links: a session is drawn from the roots if and only if some way down to it passes no collapsed session. |
| SessionForest.EverySessionOnce | client/src/core/session_tree.ts:75-114 | Over any links, with nothing collapsed, every session exactly once. |
| SessionForest.VisitSplits | client/src/core/session_tree.ts:76-111 | A list is walked as its parts are, one after the other. |
| SessionForest.DrawnIsReached | client/src/core/session_tree.ts:76-111 | A session drawn stands at the end of an open way down as long as its depth says. |
| ChangeNumbers.Numbered | client/src/views/changes.ts:80-126 | The loop draws the lines of the answer in the order of their numbers. |
| ChangeNumbers.NumbersAreRight | client/src/views/changes.ts:80-126 | For a unified diff of two files, any lines of it withheld and the answer in any order: every number drawn names the line of that file holding the text drawn, if and only if no `\ No newline` line is shown where the count is known. |
| ChangeNumbers.PlainIsRight | client/src/views/changes.ts:80-126 | So where every body line begins with a space, a plus or a minus no number is ever wrong. |
| ChangeNumbers.NothingIsMissing | client/src/views/changes.ts:80-126 | Every line is drawn in its place, withheld ones as withheld, and with nothing withheld no line of code lacks its number. |
| ChangeNumbers.MarkerMisnumbers | client/src/views/changes.ts:108-123 | A concrete diff in which a backslash line is counted and the added line after it is named one too far down. |
| ChangeNumbers.HeaderReads | client/src/views/changes.ts:72-73 | A hunk header, lengths written or not, reads as the starts it was written from. |
| ChangeNumbers.OneOrder | client/src/views/changes.ts:90-94 | Sorting restores the one order the numbers give. |
| ChangeNumbers.BodyRight | client/src/views/changes.ts:108-123 | Within one hunk the numbers are right exactly while no marker is counted. |
| DocumentSave.ReadDraft | client/src/core/document_save.ts:51-63 | A stored draft is read back exactly when its changes are in order, apart and inside the version, and then as they were written, fit to be spliced. |
| DocumentSave.SaveOf | client/src/core/document_save.ts:76-82 | The save sent: the version it was made on and the changes as byte edits. |
| DocumentSave.ReceiptIn | client/src/core/document_save.ts:94-102 | The receipt is the version named by the first line carrying the save's own key, and where those lines name versions there is none only when no line carries it. |
| DocumentSave.RunIsHonest | client/src/core/document_save.ts:104-209 | Over every run of edits, saves, receipts, refusals, lost and regained links and versions moving: `clean`, `saved` and an unedited save in flight always mean that the texts agree; and `draft` and `edited` mean that they differ, throughout, if and only if no step leaves changes that change nothing. |
| DocumentSave.SameStretchIsDraft | client/src/views/refrain/session.svelte.ts:260-275 | Such a step: a stretch replaced by itself is unsaved work no different from what is stored. |
| DocumentSave.FliesUntilAnswered | client/src/core/document_save.ts:183-209 | Through any run without its receipt or its own refusal a save stays in flight, its command and its text as sent. |
| DocumentSave.SavedWasReceipted | client/src/core/document_save.ts:106-209 | A run comes to say "saved" only through a receipt with nothing changed since its save was sent. |
| DocumentSave.SameSaveInFlight | client/src/core/document_save.ts:142-209 | The save in flight at the end of any run is the last one sent, whole, its key included. |
| BeliefFolds.SessionsConverge | client/src/core/belief.ts:180-188 | The same records in any order and any repetition leave the same sessions. |
| BeliefFolds.SessionsAreNewest | client/src/core/belief.ts:180-188 | Each room is left at the newest line above zero that opened a session there. |
| BeliefFolds.PoliciesConverge | client/src/core/belief.ts:189-194 | The same for policies, where one line has one reading. |
| BeliefFolds.PoliciesAreNewest | client/src/core/belief.ts:189-194 | Each room is left at the newest policy a line above zero gave it. |
| BeliefHalts.HaltedRightIffInTime | client/src/core/belief.ts:148-167 | In whatever order the lines of a ledger come, however often each and whatever they say: the shut list ends holding a scope exactly when its newest word says so, if and only if that word is folded before any later word on any scope. |
| BeliefHalts.GapPageIsLost | client/src/core/belief.ts:148-167 | An order it fails in: a halt folded as it streams, then an older halt of another scope from a page of a gap, which stays off the list. |
| BeliefHalts.HaltedIsTheNewestWord | client/src/core/belief.ts:148-167 | So records in ledger order leave the shut list holding a scope exactly when the newest word on it is halted, or none was said and it was held. |
| BeliefHalts.HaltedOnce | client/src/core/belief.ts:148-167 | In whatever order records come, a scope is listed at most once. |
| BeliefHalts.AdoptedConverges | client/src/core/belief.ts:112-146 | An answer read later than the position it can claim by still converges: once the records after that position are folded, in any order in which a scope's newest word comes in time, past the point it was read at, the list holds the scope exactly when it is shut. |
| Belief.Store.Write | client/src/core/belief.ts:84-87 | Every write is a new belief, published at once outside a batch. |
| Belief.Store.Apply | client/src/core/belief.ts:171-204 | A record writes what it says, write after write. |
| Belief.Store.Batched | client/src/core/belief.ts:89-104 | Folds in a batch are published once, after the last, and only if the belief moved; one that throws still leaves the nesting closed; however batches nest, the published belief is the belief whenever none is open. |
| Belief.Store.Perform | client/src/core/belief.ts:60-330 | Every call leaves the belief its writes say and tells subscribers of them, within batches of nothing. |
| DocumentWindows.GatheredIsPrefix | client/src/core/document_windows.ts:104-111 | Whatever true answers arrive, repeated, out of order or for other versions, the text is exactly the version's own up to the byte it has reached. |
| DocumentWindows.OpenedIsPrefix | client/src/core/document_windows.ts:43-111 | The same from whatever a document answer opens. |
| DocumentWindows.RecordedIsPrefix | client/src/core/document_windows.ts:77-111 | The same from an older version, of which only the name is known. |
| DocumentWindows.WholeIsEntire | client/src/core/document_windows.ts:86-88 | A whole text is the version read to its end. |
| DocumentWindows.GatheringEnds | client/src/core/document_windows.ts:93-111 | Asked window after window, gathering ends after finitely many answers. |
| DocumentWindows.GatheringFinishes | client/src/core/document_windows.ts:86-111 | Asked until nothing is left to ask, the text ends whole if and only if it was whole, or the version is below the bound, or exactly at it with its length known. |
| Base64.DecodeUndoesEncode | client/src/core/document_bytes.ts:83-86 | Base64 (section 4 of RFC 4648) is read back as the bytes it was written from. |
| DocumentBytes.PartsAddUp | client/src/core/document_bytes.ts:48-58 | Whatever is answered, the lengths of the parts sum to `through`. |
| DocumentBytes.FetchedIsPrefix | client/src/core/document_bytes.ts:40-58 | Whatever true answers arrive, the parts are the object's bytes up to `through`, and all of them once nothing is left to ask of an object small enough to draw. |
| DocumentBytes.FetchFromNothing | client/src/core/document_bytes.ts:33-58 | Both from the start of a fetch: whatever true answers arrive, the parts sum to `through` and are the object's bytes that far. |
| DocumentBytes.WindowMovesOn | client/src/core/document_bytes.ts:40-58 | A true window of what was asked moves on or finishes. |
| DocumentBytes.FetchedOf | client/src/core/document_bytes.ts:60-71 | The buffer filled part after part holds exactly the parts, one after the other. |
| Replying.RunStaysGood | client/src/core/replying.ts:36-70 | In every run of a reply growing and being answered, whatever bytes the answers name, and however a streaming one is cut into pieces: what is laid never passes the end nor splits a character, and the question out is a non-empty beginning of what is unread, complete lines while it streams. |
| Replying.EveryRunIsGood | client/src/core/replying.ts:36-70 | The same in every run from a reply's opening. |
| Replying.NoQuestionRepeats | client/src/core/replying.ts:36-41 | After a streaming answer another question is due if and only if a line break has arrived past the stretch asked. |
| Replying.StreamingAsksPerBreak | client/src/core/replying.ts:36-70 | A streaming reply is answered no more often than line breaks arrive. |
| Replying.SettledStops | client/src/core/replying.ts:43-70 | A settled reply stops asking after no more answers than code units are left, and one. |
| Link.DeliveredWasGreeted | client/src/core/link.ts:238-301 | In every run a frame is passed on only on a link that, since it last opened and without being lost, was welcomed with this build's version and schema. |
| Link.StoppedIff | client/src/core/link.ts:201-345 | In every run a link is stopped if and only if something stopped it and no retry came after: anything but this build's welcome where one is due, a second welcome or word of another wire once live, a frame that does not read, or the socket's end after a close was asked for. |
| Link.StoppedUntilRetry | client/src/core/link.ts:309-315 | A refused or deliberately closed link does nothing and opens nothing until a retry. |
| Link.WaitsNeverFall | client/src/core/link.ts:119-124 | Successive waits never fall until a frame comes in while live or a person retries. |
| Link.WaitIsRung | client/src/core/link.ts:213-219 | Each wait is the rung its number of outages since then names. |
| LiveOutput.TailIsRightIff | client/src/core/live_output.ts:26-38 | Appending piece by piece equals bounding the whole output once, for every output, if and only if the bound is at least one line: each stream holds its newest lines and `cut` counts the rest of both. |
| LiveOutput.TailIsRight | client/src/core/live_output.ts:26-38 | The positive half, for every sequence of pieces. |
| LiveOutput.NoCapMiscounts | client/src/core/live_output.ts:34-38 | Below one, two pieces of one line are counted as two. |
| LiveOutput.BoundingOnce | client/src/core/live_output.ts:34-38 | Bounding what was bounded and grew is bounding the whole, the counts adding up. |
| LiveOutput.BoundedKeeps | client/src/core/live_output.ts:34-38 | What is kept is the newest lines, as many as the bound. |
| Splitting.SplitUndoesJoin | client/src/core/live_output.ts:34-38 | Lines joined are cut into the same lines. |
| RouteViews.RoundTrip | client/src/core/route.ts:134-393 | For every view of the types' own names: it is printed and read back as itself if and only if its address is whole characters, it is not a building's page whose name ends in `catalog` below another, and a linked document's path is not empty and its names are whole characters. |
| RouteViews.SpellingsDiffer | client/src/core/route.ts:134-167 | Two such views never share a spelling. |
| RouteViews.ReadIsTyped | client/src/core/route.ts:321-393 | Whatever fragment is read, the view has every name in its own grammar. |
| RouteViews.BuildingTrips | client/src/core/route.ts:144-145 | The building's case, exactly. |
| RouteViews.TalkTrips | client/src/core/route.ts:136-142 | The conversation's case, with a stretch and an item. |
| RouteParts.AddressReads | client/src/core/route.ts:279-300 | An address is written exactly when it is whole characters, in characters that part nothing, and read back. |
| RouteParts.CatalogEnds | client/src/core/route.ts:345-360 | An address written ends like a catalog's page exactly when it names one. |
| RouteTrip.ItemReads | client/src/core/route.ts:173-213 | An item's query is read back as the item exactly when it can be linked to. |
| RouteTrip.DocumentReads | client/src/core/route.ts:180-213 | The document's case: its path not empty, no half surrogate pair in its names. |
| RouteTrip.QueryIsNoInvitation | client/src/core/route.ts:321-325 | A conversation's fragment is never taken for an invitation. |
| Percents.ComponentReads | client/src/core/route.ts:283-296 | Percent-encoding (section 2.1 of RFC 3986) is read back. |
| Percents.FormReads | client/src/core/route.ts:170-186 | What a form writes is read back, half surrogate pairs replaced. |

## Left out

- Sockets, fetches, the DOM, stores of the browser, and the processes behind them (`socket.ts`, `line.ts`, `main.ts`,
  `speaking.ts`, `enrol.ts`): only the calls they make into the machines are modelled.
- Decoding of frames and answers (`wire.ts`, `frames.ts`): frames and answers arrive as typed values.
- Numbers are unbounded integers; only where a text's number is read back is the largest safe integer kept.
- Phrases, refusal wordings and what a person is shown of them: an error is its code, its action and a cause.
- Staleness.ReachOf: the question names it has no case for are one name, whose reach is the same.
- Asking.Asking.Invalidate: names and keys are judged in any order, as their order changes nothing.
- Asking.Asking.Watching: the subscriber's own callback is not called; only the count of watchers moves.
- GapWalkRuns.NoRecordLost: says nothing of the freshness of answers for ranges that lag while the socket stays open,
  which the walk folds without telling the answers.
- Belief.Store.Perform: a run is only the position it has reached and whether only the stream named it; its phase, its
  words, the live list, the room index, the log and the notices rest on files that only add members of the same kind,
  and the run table is replaced rather than written in place.
- BeliefHalts.AdoptedConverges: holds for an answer that may claim to be newer; one that may not leaves the list as
  folded (`BeliefHalts.AdoptNeverGoesBack`).
- ChangeNumbers.Numbered: the count of lines folded between two hunks is computed but nothing is claimed of it.
- DocumentSave.ReadDraft: the stored text arrives parsed, or not at all.
- Replying.RunStaysGood: a settled reply does not grow by a piece that begins inside a character; nothing is claimed
  across the switch from a streaming reply to the settled one, which starts again.
- Route.FromFragment: the address bar's text holds no half surrogate pair, as a browser never puts one there.
- Route.Page: does not model names every object inherits (`constructor`, `toString`), which the source's table lookup
  answers with a value that is no view.
- Workspace addresses typed by hand and where they lead (`route.ts` from `unresolved` on), and the small modules around
  the core (`workbench.ts`, `unsent.ts`, `watching.ts`, `keys.ts`, `scope.ts`, `tags.ts`, `notify.ts`, `deferral.ts`,
  `results.ts`, `monitor.ts`, `rows.ts`): they would only add easy members.
