# Screenplay harness: verified models

The repository runs a multi-agent writing harness (the executor), records what the agents do as
traces, and works on those traces: it rebuilds the artifacts a trace produced, shows a trace live
in a desktop application, and keeps payloads, dossiers, configurations and benchmark runs in
tables. This project models the parts of that which are hardest to get right and proves what they
are for.

`dafny verify dfyconfig.toml` checks everything.

## What is modelled

**Rebuilding artifacts from overlapping tool calls** (`Intervals`, `Replay`, `LineEndings`,
`Search`, `Confluence`, `EditsApart`, `Observations`, `LinearizedContents`, `ReadWindows`,
`StitchMeaning`, `Stitching`, `ReadLines`, `Recovery`, `StitchedHeads`, `FilterGap`, `FilterShape`, `FilterSuffices`,
`FilterHarmless`, `FilterTools`, `FilterLastWrite`, `FilterOverwritten`, `FilterForks`,
`FilterErased`, `FilterEdits`, `FilterRaces`, `FilterFlaws`, `FilterOpen`, `FilterDressed`,
`FilterExactly`, `Heads`, `Collecting`, `TraceRecovery`, `Eligibility`, `EvidenceOverride`, over
`Text`, `LineBreaks` and `Lists`). Each tool call is an interval of
sequence numbers. The recovery enumerates the linear extensions of the interval order, replays
writes and edits, drops orders with an invalid step, filters the final contents by what reads saw,
and falls back to stitching numbered read windows. The main results: the search is sound and
complete for the valid linearizations and its limit counts exactly its nodes; overlapping calls
that commute where the replay meets them make the outcome unique; the window of a read is exactly
where linearizability allows it; the recovery loses no explained content, whatever the calls and
the read contain, exactly under a condition on the intervals and the sort key; stitching keeps everything it merged, and its answer,
like that of the replay, does not depend on the order of the list; a trace of two overlapping
edits that cannot disturb each other is recovered with both edits made; and a successful recovery
closes the gap that the evidence gate would report.

**The live trace of the desktop application** (`Stream`, `Framing`, `SubmitStream`, `OrderedMap`,
`TraceNodes`, `TraceProjection`, `TraceAccounting`, `TracePairing`, `TraceCalls`, `TraceShown`,
`TraceStructure`, `TraceParents`, `TraceSkeleton`, `TraceTasks`, `LiveTrace`). Chunks are pushed into a queue with one waiting
reader, cut into server-sent-event frames or lines, and trace events are folded into a tree of
nodes. The main results: no lost wake-up and no lost chunk in any run; frames do not depend on chunk boundaries;
every call event sits in exactly one node; starts meet ends first in, first out under each key, so
that calls with one start and one end meet their own, however they overlap;
parent links lead back in the list; and after any arrival order, with repeats, the live projection is the
batch projection.

**State machines over tables and caches** (`SsoAuth`, `PayloadGate`, `PayloadHash`,
`PayloadStore`, `CoverageMatrix`, `Dossiers`, `LlmConfigs`, `Benchmark`). Single-flight session
verification under any interleaving of requests; the payload normaliser and its hash; the
content-addressed store with deletion, expiry and orphan sweeps; dossier versions, immutability
and the gate that decides how a compilation ends; one active configuration per scope through all
operations and both migrations; and the benchmark loop with its bounded retries.

A class stands for an object whose fields the source updates in place; its methods are proved
against functions and predicates of the old state, and the lemmas about those say what the source
promises. Recursive functions over a trace or a table take their last element first.

## Findings

Where the code does not do what its comments or names promise, the model follows the code.

- The read filter of the recovery looks at one recorded order per content. A content may be
  dropped although another valid linearization that ends in it explains the reads
  (`FilterGap.FilterForgetsOrders`). For one read, when that cannot happen, whatever the calls and
  the read contain, is a matter of the intervals and the sort key (`FilterExactly.ExactExactly`).
  Either the read is decided (`FilterShape.Decided`): all calls are over when the read starts, or
  none has started when it ends; or the calls that overlap the read have smaller keys than the
  later ones, and of those over or running no two overlap, or one of four small cases applies. Or
  there are too few orders for several contents and a forgotten order at once: no two calls
  overlap, but for one pair, or there are just three calls, none after the read and at most one
  over. On all other intervals there are calls and a line for which the replay reaches several
  contents and the recovery drops one that an order which explains the read ends in. The condition
  suffices for several reads as well, and so does, whatever the intervals, a read that overlaps no
  call while the calls before it commute where they overlap (`FilterHarmless.NothingLostFor`).
- When the replay leaves nothing, one content is stitched, and every call overlaps the prefix read
  that is credited with it, the credited order is empty, and taking its last operation raises an
  IndexError instead of the recovery's own error (`StitchedHeads.NoFinalOperationExactly`; one edit
  and one read during it suffice, `StitchedHeads.EditDuringRead`). Calls that overlap the prefix
  read take no part in the stitched text (`StitchedHeads.OverlappingCallIgnored`).
- A stitched text whose last line is empty loses that line unless a newline follows
  (`Stitching.AssembledTextShowsItsLines`).
- The submit stream resets the event type on every read, so an event whose `event:` and `data:`
  lines arrive in different reads is dropped (`SubmitStream.EventsDependOnChunking`).
- Approving a trace again after a revocation stores the new approver, but the answer names the old
  one (`EvidenceOverride.ApproveAgain`).
- A second `read()` while one waits takes its place; the first is never answered
  (`Stream.StreamReader.Read`, `Stream.StreamReader.Drive`). An error with an empty text ends the
  stream as if it were complete.
- A verification answer without a user id is cached but never hits, so it does not spare the next
  call (`SsoAuth`: only answers that name a user count as successes).
- A payload that was tombstoned and is stored again stays unreadable, and its new body is swept
  (`PayloadStore.Store.KeepTombstoned`); a sealed payload is kept past its expiry but cannot be
  read (`PayloadStore.SealedAfterExpiry`).
- Events without call id and run id are paired by agent and model or tool, joined by a colon: with
  colons in the names, events of different agents count as one call (`TraceCalls.ColonsCollide`).
- A "\r" and a "\n" with an empty line between them read as one line end, so that the empty line is
  lost when an edit is normalised (`LineEndings.LinesNormalise`).
- A subagent whose name contains "evaluation" without a "-evaluation" to strip becomes its own
  parent (`TraceStructure.OwnParentExactly`).
- The end of a task pops whatever task is on top of the stack. When parallel tasks do not end
  innermost first, the stack no longer lists the running tasks, and agent instances are cut at
  the wrong places (`TraceTasks.StackExactly`, `TraceTasks.NewInstanceExactly`). Outside any task
  every event of a subagent opens a new instance.
- Two events with the same sequence number are shown in the order in which they arrived, and the
  status and the event count of a run depend on arrival (`LiveTrace.ReorderingShowsExactly`,
  `LiveTrace.RunShowsArrival`, `LiveTrace.SummaryMeaning`).
- A compilation in which single stages failed can still end ready; so could one that hit the call
  limit (out of reach with four stages), although the log speaks of a downgrade to partial
  (`Dossiers.DossierRepo.Compile`: the condition `Evidenced` does not ask), and so can one whose
  semantic layer failed with an exception without a message. An exception after the result is
  stored cannot turn the dossier into a failed one: the attempt is refused, and the caller gets the
  refusal. A partial recompilation leaves the trace without a consumable dossier
  (`Dossiers.ConsumableAfterMark`).
- A database that goes from the oldest configuration table straight to the present schema gets no
  executor configuration, because the scope column already exists when the copies would be made
  (`LlmConfigs.Repository.Migrate`).
- A benchmark row that was running when the process died is never picked up again: the loop only
  takes due rows and leaves all others as they are (`Benchmark.BenchmarkRuns.RunBatch`).

## Model

| member | source | states |
|---|---|---|
| Intervals.SomeOperationReady | evolution/app/dossier/recovery.py:273-281 | While operations remain, one of them has all its predecessors done: the one that ended first. The search never gets stuck. |
| Intervals.LinearizationExists | evolution/app/dossier/recovery.py:273-281 | Every finite set of intervals has a linearization, and the order by end is one. |
| Intervals.LinearizationCons | evolution/app/dossier/recovery.py:304-318 | A linearization is exactly a ready operation followed by a linearization of the rest, which is what one step of the recursion does. |
| Intervals.LinearizationPoints | evolution/app/dossier/recovery.py:273-281 | An order respects every "ended before started" pair if and only if each operation can be given a moment inside its own interval such that the moments follow the order. |
| Intervals.SortByKey | evolution/app/dossier/recovery.py:305-308 | The ready operations in (end, start, id) order: sorted, and the same elements. |
| LineEndings.NormalForm | evolution/app/dossier/recovery.py:376-377 | A text is left as it is by the normalisation of line endings exactly if it has no carriage return; normalising twice is normalising once. |
| LineEndings.LinesNormalise | evolution/app/dossier/recovery.py:376-377 | Lines joined by any mixture of "\r\n", "\r" and "\n" normalise to the lines joined by "\n", exactly when no empty line stands between a "\r" and a "\n", where the two read as one line end. |
| LineEndings.LinesOfOneKind | evolution/app/dossier/recovery.py:376-377 | With one kind of line end throughout they always do. |
| LineEndings.ApplyMeaning | evolution/app/dossier/recovery.py:357-385 | What one call makes of a file, every case: a write puts its content there; an edit of equal texts keeps the file; otherwise it fails exactly if the old text does not occur, or occurs several times and not all are to be replaced; else the file is cut at the old text and joined by the new one. |
| LineEndings.EditOfLines | evolution/app/dossier/recovery.py:371-385 | For old and new texts without carriage returns, of one line or several, that holds of the texts as given. |
| LineEndings.EndingsDoNotMatter | evolution/app/dossier/recovery.py:376-385 | Two edits that differ only in their line endings act alike on every file. |
| Replay.RunConcat | evolution/app/dossier/recovery.py:387-396 | Replaying a concatenation is replaying the second part from where the first one ended, and breaks where the first one breaks. |
| Replay.ValidPrefixesMeaning | evolution/app/dossier/recovery.py:286-318 | The nodes of the search tree are exactly the duplicate-free, order-respecting, predecessor-closed sequences whose every step applies. |
| Replay.FullPrefix | evolution/app/dossier/recovery.py:298-303 | A node with nothing remaining is exactly a linearization of all operations in which every step is valid. |
| Replay.OutcomesMeaning | evolution/app/dossier/recovery.py:298-318 | Soundness and completeness of the outcome set: a text is in it if and only if some valid linearization ends in it. |
| Replay.OutcomesStep | evolution/app/dossier/recovery.py:309-318 | The outcomes are those reached through some ready operation and the search below it. |
| Replay.WitnessStep | evolution/app/dossier/recovery.py:302-318 | The first order kept for a content below the least ready operation that reaches it is the lexicographically least one for the whole set. |
| Text.UniqueOccurrenceReplace | evolution/app/dossier/recovery.py:379-384 | On a unique occurrence the two branches of an edit (`replace_all` or a single replacement) give the same text. |
| Text.ReplaceAllIsSplitJoin | evolution/app/dossier/recovery.py:379-384 | Replacing all occurrences is cutting at the old text and joining with the new one, and `count` counts exactly those cuts, for every old text; the empty one is cut out before, between and behind all characters. |
| Text.StringLessMeaning | evolution/app/dossier/recovery.py:265 | The order in which paths are rebuilt and event ids break ties: at the first place where two texts differ, the one that has ended or has the smaller character comes first. |
| LineBreaks.SplitLinesExactly | evolution/app/dossier/recovery.py:514-516 | The lines of a text are exactly those between its line breaks, of which "\r\n" is one, and what is left behind the last break if that is not empty. |
| Search.LinearizationSearch.Visit | evolution/app/dossier/recovery.py:286-318 | The recursion succeeds if and only if the valid partial linearizations below the node, added to those explored before, do not exceed the limit; then it has visited exactly those, and the table gains one entry per new outcome, with the first order that reaches it, and changes no other entry. |
| Search.LinearizationSearch.VisitOne | evolution/app/dossier/recovery.py:309-318 | One turn of the loop over the ready operations: an operation that does not apply costs nothing, one that applies adds exactly the outcomes and the nodes below it. |
| Search.LinearizationSearch.Record | evolution/app/dossier/recovery.py:298-303 | A leaf adds an entry for its content only if there is content and no entry for it yet. |
| Search.CoveredAll | evolution/app/dossier/recovery.py:292-318 | The node count is one for the node itself plus the disjoint subtrees of its ready operations. |
| Recovery.FindCandidates | evolution/app/dossier/recovery.py:283-320 | The limit error is raised exactly when there are more valid partial linearizations than 200000; otherwise the table holds exactly the outcomes, each with its lexicographically least order. |
| Recovery.FilterByReads | evolution/app/dossier/recovery.py:321-330 | The filter keeps exactly the contents whose recorded order explains all reads. |
| Recovery.ReconstructPath | evolution/app/dossier/recovery.py:270-354 | The whole decision for one path: limit error, ambiguity error, the single surviving content with its order and support lists, or the stitched fallback with the one order it is credited to; also the IndexError of a stitched content without operations. |
| Recovery.Stitch | evolution/app/dossier/recovery.py:331-354 | The fallback answers with a head only for the one stitched content, with the credited order, its last operation or the IndexError, and otherwise reports zero hashes. |
| Recovery.SoleSurvivor | evolution/app/dossier/recovery.py:321-341 | A head taken from the replay is the end of a valid linearization, and every other end of a valid linearization was ruled out by the reads; without reads there is no other. |
| StitchedHeads.InputOrderIrrelevant | evolution/app/dossier/recovery.py:270-354 | Permuting the list of operations does not change the answer, whether the replay or the stitched fallback gives it, when operations end at distinct sequence numbers. |
| Recovery.ReplayIgnoresOrder | evolution/app/dossier/recovery.py:270-330 | What the replay or its limit decides depends on the set of operations alone, even when operations end together. |
| StitchedHeads.NoFinalOperationExactly | evolution/app/dossier/recovery.py:331-351 | The IndexError of an empty order: raised if and only if the replay is within its limit and leaves nothing, one content is stitched, and every operation overlaps the prefix read that is credited with it. |
| StitchedHeads.EditDuringRead | evolution/app/dossier/recovery.py:331-351 | Concrete trace with one edit and one read while it runs: the recovery must end in that IndexError. |
| StitchedHeads.CreditedMembers | evolution/app/dossier/recovery.py:447-452 | The credited order lists exactly the operations that do not overlap the prefix read. |
| StitchedHeads.CreditedSequence | evolution/app/dossier/recovery.py:436-452 | In sequence: first the operations that had ended when the read starts, by their ends and, where these are equal, as listed; then those that started after it, in an order that replays from what the read showed to the content. |
| StitchedHeads.OverlappingCallIgnored | evolution/app/dossier/recovery.py:421-453 | An operation that overlaps the prefix read can be any operation with its interval: the same contents are stitched and the same order is credited. |
| FilterExactly.ExactExactly | evolution/app/dossier/recovery.py:321-341 | For given intervals of the operations and of one read: what the filter leaves, where the recovery runs it, includes every content that some valid order which explains the read ends in, for all contents of the operations and all lines of the read, if and only if `FilterShape.Harmless` holds. That is: the read is decided by the intervals and the sort key; or no two operations overlap, but for one pair; or there are just three operations, none after the read and at most one over. |
| FilterHarmless.NothingLostFor | evolution/app/dossier/recovery.py:321-341 | For any list of reads each of which satisfies that condition, or overlaps no operation while the operations over before it commute where they overlap, no content that some valid order which explains all reads ends in is lost. |
| FilterSuffices.FilterExactFor | evolution/app/dossier/recovery.py:321-330 | For any list of reads each of which is decided by the intervals, or overlaps no operation while the operations over before it commute where they overlap: a recorded order explains the reads exactly when some order with its content does. Reads after the last operation are among them. |
| FilterSuffices.SurvivorsExact | evolution/app/dossier/recovery.py:321-341 | Where the reads are needed and nothing is lost, the surviving contents are exactly those that some valid order which explains all reads ends in. |
| FilterOpen.FindFlaw | evolution/app/dossier/recovery.py:305-330 | Wherever the condition fails, the intervals show one of ten patterns of operations around the read. |
| FilterDressed.FlawFails | evolution/app/dossier/recovery.py:321-341 | For each pattern there are contents of the operations and a line with which the replay reaches several contents and the recovery drops one, although an order that explains the read ends in it. |
| FilterEdits.DetectedLost | evolution/app/dossier/recovery.py:321-341 | Two edits that the sort key puts the other way round than the read may have seen them, and a second overlapping pair whose order shows in the end: the content is dropped although an order explains the read. The recorded order never shows the one edit without the other. |
| FilterEdits.PairRecorded | evolution/app/dossier/recovery.py:302-319 | In such a trace every recorded order has the edit of smaller key first: moving the first operation of smaller key up gives an earlier order of the same content. |
| FilterRaces.TwoStartsLost | evolution/app/dossier/recovery.py:321-341 | The same two edits, behind one of two writes that can both be first: "ABd" is dropped although an order explains the read of "aBd". |
| FilterRaces.RaceLost | evolution/app/dossier/recovery.py:321-341 | Two writes during the read and a later edit that need not wait for the second: the recorded order makes the edit first, and the content of the second write is dropped although the read saw it. |
| FilterOverwritten.TailLost | evolution/app/dossier/recovery.py:321-341 | Two operations over before the read overlap, and a last write hides which of them came first: its content is dropped, unless the read saw what the recorded order shows. |
| FilterForks.ForkLost | evolution/app/dossier/recovery.py:321-341 | A last write hides which of two writes came first, and the read saw an edit of the one that the recorded order overwrites before the edit: the content of the last write is dropped. |
| FilterForks.LateLost | evolution/app/dossier/recovery.py:321-341 | The read saw an edit made after a write that overlaps it, while the recorded order makes the edit before: the content of the last write is dropped. |
| FilterForks.LonelyLost | evolution/app/dossier/recovery.py:321-341 | Only one operation can come before the read, and a later one has the smallest key: the recorded order begins with the later one, and its content is dropped although an order explains the read. |
| FilterForks.EarlyLost | evolution/app/dossier/recovery.py:321-341 | An operation after the read has a smaller key than a write that overlaps the read: the recorded order puts the write behind the read, and the content the read saw is dropped. |
| FilterErased.ErasableLost | evolution/app/dossier/recovery.py:321-341 | Two overlapping writes and an edit that overlaps the second, all erased later but for a letter: for one of two lines, chosen by where the recorded order has the edit, the content "|a" is dropped although an order explains the read. |
| FilterErased.PairLost | evolution/app/dossier/recovery.py:321-341 | Two overlapping writes, two overlapping edits after them, all over before the read and erased later but for a letter: the same. |
| Recovery.HeadMeaning | evolution/app/dossier/recovery.py:341-354 | Any head, replayed or stitched: there is one exactly for a non-empty order; its final operation is the last of that order, and its support lists hold the ids and payloads of that order and of the reads, once each and nothing else. |
| Recovery.ReplayedHead | evolution/app/dossier/recovery.py:341-354 | When the order is one of all operations, the final operation is one that no other has to follow. |
| Recovery.DedupeMeaning | evolution/app/dossier/recovery.py:352-353 | The support lists keep each id once, lose none, and keep them in the order in which they first occur. |
| FilterGap.FilterForgetsOrders | evolution/app/dossier/recovery.py:321-341 | Concrete trace where "A" and "B" both have a valid linearization that explains the read, yet "B" is the sole survivor: the filter looks at one recorded order per content. |
| FilterGap.FitsWhen | evolution/app/dossier/recovery.py:491-511 | In that trace, exactly which of the six orders explain the read. |
| Confluence.Confluent | evolution/app/dossier/recovery.py:309-320 | If overlapping operations commute on the files that a valid prefix reaches, all linearizations replay to the same outcome. |
| Confluence.ConfluentOutcome | evolution/app/dossier/recovery.py:309-320 | Then the search finds exactly what any one linearization replays to. |
| Confluence.SequentialCollapse | evolution/app/dossier/recovery.py:273-281 | Without overlaps an arrangement is a linearization if and only if it is the order by end; there is only one. |
| Confluence.SequentialOutcome | evolution/app/dossier/recovery.py:309-320 | Without overlaps the result is the fold of the operations in end order, or nothing if that fold breaks. |
| EditsApart.OverlappingEdits | evolution/app/dossier/recovery.py:365-384 | A write and two overlapping edits whose texts lie on different sides of a separator: they commute wherever they meet, and the trace has the one outcome that has both edits. |
| EditsApart.ReplaceApart | evolution/app/dossier/recovery.py:379-384 | Replacing works on the two sides of a separator separately if the old text does not contain it. |
| Observations.Window | evolution/app/dossier/recovery.py:497-503 | The computed [minimum, maximum] contains an index if and only if inserting the read there breaks no "ended before started" pair. |
| Observations.WindowNonEmpty | evolution/app/dossier/recovery.py:504-505 | In a linearization the window of a read is never empty. |
| Observations.WindowInTime | evolution/app/dossier/recovery.py:497-503 | An index lies in the window if and only if the order with the read inserted there has moments inside all intervals. |
| Observations.StatesMeaning | evolution/app/dossier/recovery.py:387-396 | The state at index k exists exactly when the first k operations replay, and is what they replay to. |
| Observations.StatesForOrder | evolution/app/dossier/recovery.py:387-396 | The loop computes those states and stops at the first operation that does not apply. |
| Observations.ObservationsFit | evolution/app/dossier/recovery.py:491-511 | True if and only if every read has an index in its window whose state shows all its lines. |
| LinearizedContents.AllContents | evolution/app/dossier/recovery.py:458-488 | The contents reachable from a text are exactly the outcomes of the valid linearizations; each is returned once, with the last order that reaches it, in the order in which the search first meets the contents. |
| LinearizedContents.PartialReplay.Visit | evolution/app/dossier/recovery.py:473-485 | The overwriting recursion: after it, each reached content carries the lexicographically last order below the node. |
| LinearizedContents.LastWitnessUnique | evolution/app/dossier/recovery.py:475-475 | There is only one last order for a content, so what is credited is determined. |
| LinearizedContents.DiscoverOne | evolution/app/dossier/recovery.py:458-488 | Following one more ready operation puts the new contents behind all earlier ones, in the order of their first orders, as a dictionary keeps its keys. |
| ReadWindows.MergeKeepsStart | evolution/app/dossier/recovery.py:432-438 | Merging final windows never changes a line of the replayed text. |
| ReadWindows.MergeKeepsWindow | evolution/app/dossier/recovery.py:434-438 | Every window that agreed when its turn came is contained in the merged lines. |
| ReadWindows.MergeInventsNothing | evolution/app/dossier/recovery.py:434-438 | Every merged line comes from the replayed text or from a window that agreed. |
| ReadWindows.CompleteText | evolution/app/dossier/recovery.py:439-445 | A text is assembled exactly when the merged line numbers are 1..max without a gap. |
| ReadWindows.RecoverFromReadWindows | evolution/app/dossier/recovery.py:399-455 | A content is returned if and only if all combinations of a prefix read, a replay order and the final windows that can be assembled give that one content; it is credited to the last prefix read in list order that gives it and, there, to the text found last and the last order that replays to it. |
| StitchMeaning.StitchesMeaning | evolution/app/dossier/recovery.py:405-446 | What a stitched content is, said of the lists of operations and reads: it starts from a read that begins at line 1, its lines in the order of their numbers; the operations that started after that read are replayed on it; the reads that start after all operations have ended are merged in, in list order; the lines are then numbered from 1 without a gap, and joined by newlines, with one more newline exactly if the operation that ended first is a `write_file` whose text ends in one. |
| StitchMeaning.StitchedExactly | evolution/app/dossier/recovery.py:405-446 | These are exactly the contents that can be stitched. |
| ReadWindows.CreditUnique | evolution/app/dossier/recovery.py:417-455 | That credit is unique: a stitched content has one order. |
| Stitching.StitchConservative | evolution/app/dossier/recovery.py:429-445 | A stitched content keeps every line of the replayed text and of every merged window and no other line, and shows all of them when read again (up to a lost empty last line). |
| Stitching.AssembledTextShowsItsLines | evolution/app/dossier/recovery.py:439-445 | The assembled text shows all its lines again if and only if a newline follows the last line or the last line is not empty. |
| Stitching.LastEmptyLineLost | evolution/app/dossier/recovery.py:443-445 | The other case: an empty last line disappears. |
| ReadLines.ParseReadLines | evolution/app/dossier/recovery.py:571-591 | Parsing gives exactly the line map the records stand for: last base record wins, continuations in number order; anything else gives the empty map. |
| ReadLines.RoundTrip | evolution/app/dossier/recovery.py:571-591 | Numbered records, long lines cut into continuations, in any order: parsing gives back the original line map. |
| ReadLines.SortedChunksUnique | evolution/app/dossier/recovery.py:587-590 | Sorting the continuation chunks has one result, so the order of the records cannot matter. |
| Heads.ReadsOfPicked | evolution/app/dossier/recovery.py:258-261 | The reads of a path are all reads with that path, in list order, and no other. |
| Heads.WritesToPicked | evolution/app/dossier/recovery.py:254-257 | The operations of a path are all writes and edits of that versioned path, in list order, and no other. |
| Heads.VersionedPathMeaning | evolution/app/dossier/recovery.py:730-731 | The versioned paths by name and by directory. |
| Heads.ReconstructHeads | evolution/app/dossier/recovery.py:251-267 | Every versioned path that was written gets exactly one head, in path order, or the first path in that order that fails decides the error. |
| Heads.HeadsForAt | evolution/app/dossier/recovery.py:263-267 | Each head in the list is what the recovery of its own path answers, on the writes and reads of that path. |
| Collecting.CollectIntervals | evolution/app/dossier/recovery.py:519-568 | One operation for each `write_file` or `edit_file` event that ended well and whose call id has a start event, in trace order, and no other: it lasts from the sequence of the last start event with its call id to its own, and takes its ids, name, arguments and path from the end event and its payloads from both. The observations likewise, for read events whose output shows a line. |
| Collecting.CollectedTimes | evolution/app/dossier/recovery.py:540-550 | If every end event comes after the start events of its call, each collected operation starts before it ends, as the existence of orders and the windows of reads assume. |
| Collecting.ReadTimes | evolution/app/dossier/recovery.py:540-550 | The same for the reads. |
| Collecting.PathMeaning | evolution/app/dossier/recovery.py:723-727 | Slashes and backslashes in front of a path count as one slash, backslashes as slashes, and the recovery drops a leading `/workspace`. |
| Collecting.NoPath | evolution/app/dossier/recovery.py:723-725 | A blank argument, or one that is no text, is no path. |
| Collecting.BlankMeaning | evolution/app/dossier/recovery.py:724 | Spaces, tabs and line ends alone are blank, and a text with a printable character is not. |
| TraceRecovery.OverlappingEditsRecovered | evolution/app/dossier/recovery.py:250-360 | From events to head: a trace with a write and two overlapping edits on different sides of a separator, and any other events and reads around them, is recovered; the head of the path has the text with both edits made, and its hash. |
| Collecting.PathsAgree | evolution/app/dossier/eligibility.py:341-348 | The two path normalisations agree on every versioned path, `/workspace` prefix or not. |
| Eligibility.RecoveredPathsMeaning | evolution/app/dossier/eligibility.py:149-154 | The recovered paths are exactly the versioned paths with a started successful write. |
| Eligibility.RecoveryClosesGap | evolution/app/dossier/eligibility.py:149-169 | After a successful recovery no write is missing if and only if every expected path has a successful write whose start event is in the trace. |
| Eligibility.RecoverAndCount | evolution/app/dossier/eligibility.py:149-169 | Recovery followed by the gate: the count is that of the versioned paths with a write that ended well and no such write whose start is in the trace, zero if there is none; an error is the one at which a path could not be rebuilt. |
| EvidenceOverride.Runs.Approve | evolution/app/dossier/evidence_override.py:35-100 | Who can approve what, and the whole new row: afterwards the run is an approved user stop; the first approver stays until a revocation, and the answer names the approver found before. |
| EvidenceOverride.Runs.Revoke | evolution/app/dossier/evidence_override.py:103-125 | A revocation sets its time only where an approval is in force, and afterwards none is. |
| EvidenceOverride.Runs.Run | evolution/app/dossier/evidence_override.py:35-125 | Any sequence of ingestion, approvals, revocations and other updates: in every row stored, the assessment and the candidate query agree, and both select exactly the verified creation runs that completed, or were stopped by their user and approved without a later revocation. |
| EvidenceOverride.ApproveAgain | evolution/app/dossier/evidence_override.py:66-93 | Concrete run: approving again after a revocation stores the new approver but reports the old one. |
| EvidenceOverride.StrippedMeaning | evolution/app/dossier/evidence_override.py:45-50 | The stored reason is the given one without the blanks in front and behind, and no others. |
| Stream.StreamReader.OnChunk | desktop/src/lib/stream.ts:90-100 | A waiting reader gets the chunk at once; otherwise it is queued, and dropped after `cancel`. |
| Stream.StreamReader.OnEnd | desktop/src/lib/stream.ts:102-114 | An end event finishes the stream and wakes the waiting reader. |
| Stream.StreamReader.OnInvokeFailed | desktop/src/lib/stream.ts:117-134 | A failed request finishes the stream with its error and wakes the waiting reader. |
| Stream.StreamReader.Read | desktop/src/lib/stream.ts:137-149 | Queued chunks first and in order; the end, or an error with a text that is not empty, only once the queue is drained; otherwise the read waits. |
| Stream.StreamReader.Cancel | desktop/src/lib/stream.ts:152-162 | Stops listening, finishes the stream and wakes the waiting reader. |
| Stream.StreamReader.Drive | desktop/src/lib/stream.ts:72-164 | Any run: delivered chunks followed by the queue are the chunks received, and a reader waits only on an empty open stream. A displaced read stays without an answer; none is displaced exactly when no read is made while another waits, and then every read is answered except the one waiting. |
| Text.SplitConcat | desktop/src/stores/execution.ts:777-779 | Splitting text that arrives in parts: keep the unfinished last piece, go on with it in front of the next part, and the pieces are those of the whole text, also when a separator is cut. |
| Text.JoinSplit | desktop/src/stores/execution.ts:777-779 | Splitting loses nothing: joining the pieces gives the text back. |
| Framing.WrittenFrameRead | desktop/src/stores/execution.ts:790-806 | A frame written as one `event:` line and one `data:` line for each piece is read back as that event, its data put together and parsed; without a type, or if it does not parse, as none. |
| Framing.FieldsOneMore | desktop/src/stores/execution.ts:790-806 | Of several types in a frame the last counts, data lines are put together in order, and other lines are skipped. |
| Framing.ReadImageStream | desktop/src/stores/execution.ts:774-825 | Whatever the chunk boundaries, the outcome is that of the completed frames of the whole text, up to the frame that stops the stream. |
| Framing.HandleFramesConcat | desktop/src/stores/execution.ts:781-824 | Handling frames in batches is handling them one after the other, and nothing is handled after the stopping frame. |
| Framing.FirstStopDecides | desktop/src/stores/execution.ts:781-824 | The outcome is the streamed text of the frames before the first one that ends the stream, and the reason that frame gives; null data and unparsable frames are skipped. |
| SubmitStream.LineRecognised | desktop/src/stores/execution.ts:527-533 | Line by line: an event line sets the type, trimmed; a data line behind one completes an event with the trimmed data; any other line changes nothing. |
| SubmitStream.SpaceMeaning | desktop/src/stores/execution.ts:529-531 | Spaces, tabs and line ends are trimmed, printable characters are not. |
| SubmitStream.WrittenLinesRead | desktop/src/stores/execution.ts:527-545 | Events written as an `event:` line, a `data:` line and an empty line are read back as the same events. |
| SubmitStream.ReadSubmitStream | desktop/src/stores/execution.ts:518-635 | The events handled are those recognised read by read, each read up to an out-of-credit event. |
| SubmitStream.LinesIndependentOfChunking | desktop/src/stores/execution.ts:523-525 | The lines of all reads together are the completed lines of the whole text. |
| SubmitStream.PerReadAgainstWhole | desktop/src/stores/execution.ts:527-533 | Reading by chunks never yields more events than the whole text, and the same events if and only if no read boundary falls between an event line and its data line. |
| SubmitStream.EventsDependOnChunking | desktop/src/stores/execution.ts:527-533 | The same for the handled events of a stream without out-of-credit events: the event type is reset on each read. |
| SubmitStream.CreditEndsOneRead | desktop/src/stores/execution.ts:527-600 | Any stream: what is handled is what the reads recognise up to the first out-of-credit event, followed by what the later reads bring. |
| SubmitStream.CreditAgainstWhole | desktop/src/stores/execution.ts:527-600 | If no boundary cuts an event from its data, the reads handle what one read of the whole text would, and then what later reads bring after an out-of-credit event; the two agree exactly when that is nothing. |
| OrderedMap.GetSet | desktop/src/lib/trace.ts:222-226 | Setting a key of a JavaScript Map changes that key and no other. |
| OrderedMap.GetDelete | desktop/src/lib/trace.ts:249-249 | Deleting a key removes that key and no other. |
| TraceProjection.ProjectTraceDetail | desktop/src/lib/trace.ts:33-463 | The pass over the events, with its queues, task stack and counters, gives exactly the nodes, context and todos of the step function folded over the events. |
| TraceProjection.Projector.EnsureAgentNode | desktop/src/lib/trace.ts:71-131 | A node is added exactly for the first call of a main agent and for a call that opens an instance of a subagent; it is the node that the call names as its parent; queues, context, todos, tasks and other agents stay. |
| TraceProjection.Projector.HandleTask | desktop/src/lib/trace.ts:162-205 | Queues, context, todos and agents stay; a start pushes its call on the stack and into the task table, an end pops the stack, removes its call and adds one task node, failed or completed. |
| TraceProjection.Projector.HandleEnd | desktop/src/lib/trace.ts:246-373 | An end takes the oldest waiting start of its key, no other queue changes, and adds one node that holds both and hangs below the agent, one segment, and those of the todos it wrote; all else stays. |
| TraceProjection.Projector.PushRunning | desktop/src/lib/trace.ts:405-440 | The starts that are left become running nodes, queue by queue in insertion order: one for each start that waits, and none else. |
| TraceCalls.KeyMeaning | desktop/src/lib/trace.ts:704-710 | Two events of a family have the same pairing key exactly if they have the same call id; or none, and the same run id; or neither, and the same names. |
| TraceCalls.PairsAreCalls | desktop/src/lib/trace.ts:246-352 | In a projection, a call node of several events holds a start and then an end of one call in that sense. |
| TraceCalls.CallPaired | desktop/src/lib/trace.ts:216-352 | If no call has more than one start and then one end, each end is in one node with exactly its own start, named by that start, however the calls overlap. |
| TraceCalls.EndAlone | desktop/src/lib/trace.ts:246-352 | An end without a start is in a node alone. |
| TraceCalls.RunningExactly | desktop/src/lib/trace.ts:405-440 | And the running call nodes are exactly those of the starts that no event ends, each a model or a tool call as the start is and named by it. |
| TraceCalls.NamesMeaning | desktop/src/lib/trace.ts:707-708 | Where no agent has a colon in its name, the same names are the same agent and the same model or tool. |
| TraceCalls.ColonsCollide | desktop/src/lib/trace.ts:707-708 | Concrete events of different agents and models, with colons in their names, that count as one call. |
| TraceCalls.Classes | desktop/src/lib/trace.ts:162-246 | Which events are task events, calls, and starts, and to which family they belong. |
| TraceCalls.EndShown | desktop/src/lib/trace.ts:246-352 | How the end of a call is shown, by node kind, status and segment kind: model calls, failed ones, skills, tools, and tools whose output tells of an error. |
| TraceShown.TaskShown | desktop/src/lib/trace.ts:177-205 | The end of a task is a node under the run, named by the call or else by the event: failed after a tool error or with a failed status, otherwise completed. |
| TraceShown.RunErrorShown | desktop/src/lib/trace.ts:375-395 | An error of the run is a failed node under the run. |
| TraceShown.TodoShown | desktop/src/lib/trace.ts:341-372 | Todos that a call wrote are a node behind that of the call, with its events and its parent. |
| TraceShown.SegmentsTell | desktop/src/lib/trace.ts:246-395 | Every segment of the context tells of an event of the trace and has the kind that goes with it. |
| TraceAccounting.Accounting | desktop/src/lib/trace.ts:218-373 | The call nodes hold exactly the LLM and non-task tool events, each as often as it occurs (multiset equality over any trace). |
| TraceAccounting.EachCallInOneNode | desktop/src/lib/trace.ts:218-440 | With distinct event ids each call event sits in exactly one call node. |
| TraceAccounting.CallIdsUnique | desktop/src/lib/trace.ts:727-733 | With distinct event ids no two call nodes share an id. |
| TraceAccounting.WaitingDequeue | desktop/src/lib/trace.ts:247-249 | Taking from a queue loses its oldest start and nothing else. |
| TracePairing.FirstInFirstOut | desktop/src/lib/trace.ts:246-440 | Under each pairing key the paired starts, in the order of their ends, followed by the running ones, are the starts in trace order; ends keep their order too. |
| TracePairing.QueueIsLargestSurplus | desktop/src/lib/trace.ts:222-249 | A queue is as long as the largest surplus of starts over ends in any last stretch of the trace. |
| TracePairing.PairedExactly | desktop/src/lib/trace.ts:246-249 | An end finds a start if and only if some stretch of events just before it holds more starts than ends of its key. |
| TraceParents.ParentsExactly | desktop/src/lib/trace.ts:57-131 | The parent of a node is missing exactly for an evaluation agent opened before the agent it evaluates; every other parent is the run, the node itself, or stands before the node in the list, so the links have no other cycle. |
| TraceParents.PrimaryIsSubagent | desktop/src/lib/trace.ts:108-114 | What an evaluation subagent evaluates has the name of a subagent again. |
| TraceStructure.SubagentMeaning | desktop/src/lib/trace.ts:736-738 | Subagents are the agents whose names end in "-subagent". |
| TraceStructure.InstanceBelow | desktop/src/lib/trace.ts:71-131 | What the node of a new instance hangs below: the run, or, if its name speaks of an evaluation, the latest instance of the agent it evaluates, whose name is what is left without "-evaluation", or that agent itself if it has no instance. |
| TraceStructure.OwnParentExactly | desktop/src/lib/trace.ts:108-114 | A subagent instance becomes its own parent exactly when its name speaks of an evaluation, is not `evaluation-subagent`, and contains no `-evaluation` to strip. |
| TraceSkeleton.TaskNodes | desktop/src/lib/trace.ts:162-205 | One completed or failed node per task end, in trace order, and one running node for exactly those calls whose last task event is a start. |
| TraceSkeleton.TaskRunningExactly | desktop/src/lib/trace.ts:163-177 | The table of running tasks holds exactly the calls whose last task event is a start, with that event. |
| TraceSkeleton.AgentNodes | desktop/src/lib/trace.ts:71-131 | A main agent has at most one node; the instances of a subagent are numbered 1, 2, ... in the order of their nodes, without gaps or repeats. |
| TraceSkeleton.AnchorsMeet | desktop/src/lib/trace.ts:133-157 | Segments are numbered 1, 2, ...; the anchored nodes are, in order, the nodes that the segments name, each with its segment's anchor. |
| TraceSkeleton.TodosShown | desktop/src/lib/trace.ts:342-371 | One todo snapshot and one todo node for each end of a todo tool that lists todos, in trace order. |
| TraceTasks.StackStepExactly | desktop/src/lib/trace.ts:163-205 | One event keeps the task stack equal to the list of running tasks if and only if a start names a task that is not running and an end names the innermost one. |
| TraceTasks.StackExactly | desktop/src/lib/trace.ts:163-205 | Throughout a trace the stack is the list of running tasks if and only if the task events are nested in that sense. |
| TraceTasks.RemembersTask | desktop/src/lib/trace.ts:95-104 | A subagent remembers the innermost task at its previous event. |
| TraceTasks.NewInstanceExactly | desktop/src/lib/trace.ts:95-104 | A subagent event opens one new instance unless the innermost task is the one at the subagent's previous event: at its first event, outside of tasks, and in another task. |
| LiveTrace.AppendLiveTraceEvent | desktop/src/lib/trace.ts:11-23 | One arrival: an event of another trace starts a new list and a new summary; otherwise the event replaces the one with its id and stands behind all that are not later, the others stay, the list is sorted with unique ids, and nodes, context and todos are the projection of exactly this list. |
| LiveTrace.OrderIrrelevant | desktop/src/lib/trace.ts:11-23 | Two feeds of the same events, in any order and with repeats, show the same event list. |
| LiveTrace.LiveIsSorted | desktop/src/lib/trace.ts:17-20 | That list is the sorted list of the distinct events. |
| LiveTrace.FollowAndCompare | desktop/src/lib/trace.ts:11-23 | Live equals batch: after all arrivals every node but the run node, all context and all todos are what one projection of the sorted events gives. |
| LiveTrace.ArrivedElements | desktop/src/lib/trace.ts:18-20 | At any time the list is sorted, has unique ids, and holds the last version of each event that arrived. |
| LiveTrace.ReorderingShowsExactly | desktop/src/lib/trace.ts:18-20 | For a feed in which a repeated id brings the same event: all feeds of the same events show the same list if and only if different events have different sequence numbers. |
| LiveTrace.SummaryMeaning | desktop/src/lib/trace.ts:671-686 | The run summary after any feed: the status of the last event that sets one, and the greatest sequence number among the last final event and those that came after it. |
| LiveTrace.RunShowsArrival | desktop/src/lib/trace.ts:671-686 | Two events of any kind give one summary in both orders exactly when they do not set different statuses and neither is final with the smaller sequence number. |
| SsoAuth.SingleFlight | evolution/app/core/sso_auth.py:95-107 | In a serial history, of any two verification calls of a session the earlier had ended before the later started, and if it named a user its cache time was over. |
| SsoAuth.Middleware.Arrive | evolution/app/core/sso_auth.py:88-94 | An unexpired entry that names a user answers at once: it lets the request pass if the user is on the white list, and refuses it otherwise; without such an entry the request goes to the lock of its own session. |
| SsoAuth.Middleware.Acquire | evolution/app/core/sso_auth.py:95-99 | The second look at the cache: such an entry answers in the same way and releases, otherwise the one call of the session starts. |
| SsoAuth.Middleware.Complete | evolution/app/core/sso_auth.py:99-117 | The call ends: the request passes as a user exactly if the call named that user and the user is on the white list, gets 403 exactly if the session was verified otherwise, 401 and 503 exactly after those verdicts; what is cached; and that no other session is touched. |
| SsoAuth.Middleware.Interleave | evolution/app/core/sso_auth.py:88-117 | Any interleaving: at most one call per session in flight, after one that named a user none starts before its entry expired; and every request that is over got exactly what its own call, or the unexpired entry from a call that it found, deserves in that sense. |
| PayloadGate.KeysMeaning | contracts/trace/payload.py:80-119 | Reasoning keys and secret keys are those that contain one of the listed words, in any spelling. |
| PayloadGate.SpellingDoesNotMatter | contracts/trace/payload.py:80-119 | Two keys have the same lowered form exactly if they differ only in the case of letters and in hyphens for underscores. |
| PayloadGate.KeepsExactly | contracts/trace/payload.py:80-119 | What stands at a position of the normalised value is the normalised value of what stood there if no reasoning key is on the way, and nothing otherwise. |
| PayloadGate.RejectsExactly | contracts/trace/payload.py:88-120 | A payload is rejected if and only if something forbidden stands at a position that no reasoning key leads to. |
| PayloadGate.AcceptedIsClean | contracts/trace/payload.py:88-120 | An accepted payload has no secret key and no secret-like string outside reasoning fields, at any depth. |
| PayloadGate.NormalizedTwice | contracts/trace/payload.py:80-120 | Normalising again changes nothing and strips nothing. |
| PayloadGate.ReportSound | contracts/trace/payload.py:110-113 | Every reported key is a reasoning key met outside other reasoning fields. |
| PayloadGate.ReportComplete | contracts/trace/payload.py:110-113 | Every such key is reported. |
| PayloadHash.CanonicalExactly | contracts/trace/payload.py:69-71 | Two values have the same canonical form if and only if they are the same payload up to the order of keys. |
| PayloadHash.HashIgnoresKeyOrder | contracts/trace/payload.py:67-78 | Payloads that differ in key order only are both accepted with one hash, or both rejected. |
| PayloadStore.Store.Put | contracts/trace/payload.py:146-165 | A body is written under its own hash if it reads back as written; otherwise the directory is as before. |
| PayloadStore.Store.Keep | evolution/app/trace/recorder.py:591-606 | A put with the row upsert: expiry moved or row sealed, the tombstone never cleared; the payload is readable afterwards exactly when it was not tombstoned and has not expired. |
| PayloadStore.Store.Index | evolution/app/ingestion/importer.py:367-389 | The importer indexes a payload whether or not its body came along. |
| PayloadStore.Store.DeleteTrace | evolution/app/trace_payloads.py:70-99 | The links of the trace and the revisions it produced go; tombstoned and erased is exactly what the trace had linked and no remaining link, revision or outcome names; every other link, revision, row and body stays. |
| PayloadStore.Store.Purge | evolution/app/trace_payloads.py:53-67 | Exactly the rows that are not deleted, not sealed and past their expiry are tombstoned and lose their bodies, and they are counted. |
| PayloadStore.Store.Sweep | evolution/app/trace_payloads.py:102-121 | Exactly the leftovers and the bodies without a live row that are past the grace period are removed, and they are counted. |
| PayloadStore.Store.Run | evolution/app/trace_payloads.py:53-121 | Any run: each file holds what its name hashes, every live row that ever had a body has it, and sealed evidence named by an outcome keeps its row and its body. |
| PayloadStore.Store.KeepTombstoned | evolution/app/trace_payloads.py:41-50 | Storing a tombstoned payload again succeeds, stays unreadable, and loses its new body to a later sweep. |
| PayloadStore.SealedAfterExpiry | evolution/app/trace_payloads.py:41-50 | A sealed payload past its expiry survives the purge with its body, and is refused by the read. |
| Dossiers.VersionsIncrease | evolution/app/dossier/repo.py:58-64 | Versions of a trace are unique and grow with each new dossier. |
| Dossiers.DossierRepo.NextVersion | evolution/app/dossier/repo.py:58-64 | MAX(version) + 1 is the number of dossiers of the trace plus one. |
| Dossiers.DossierRepo.Update | evolution/app/dossier/repo.py:93-168 | A dossier that has ended is never changed; otherwise exactly the given columns are. |
| Dossiers.DossierRepo.MarkCurrent | evolution/app/dossier/repo.py:171-191 | The dossier becomes the only current one of its trace, and every other ready or partial one is superseded. |
| Dossiers.DossierRepo.GetConsumable | evolution/app/dossier/repo.py:235-251 | The current dossier if ready, otherwise the ready one with the highest version, otherwise none. |
| Dossiers.ConsumableAfterMark | evolution/app/dossier/repo.py:171-251 | After a mark the only dossier that can be consumed is the marked one, if it is ready; a partial recompilation revokes an earlier ready version. |
| Dossiers.DossierRepo.Compile | evolution/app/dossier/compiler.py:42-237 | How a compilation ends: failed if stopped, ready if and only if the contract is fulfilled without gaps and the semantic layer does not count as skipped, partial otherwise; an exception after the result is stored is refused as a change of an ended dossier, and the result stays. |
| Dossiers.DossierRepo.Run | evolution/app/dossier/repo.py:67-191 | Any run: versions 1, 2, 3, ... per trace, at most one current dossier, and what has ended keeps its content and its status up to being superseded. |
| CoverageMatrix.ItemsNamed | evolution/app/dossier/compiler.py:320-573 | The items by dimension and key, in order. |
| CoverageMatrix.VerdictsMeaning | evolution/app/dossier/compiler.py:320-573 | The verdict of each item: not applicable where nothing is asked, covered where the facts have it, missing otherwise. |
| CoverageMatrix.ComputeMatrix | evolution/app/dossier/compiler.py:320-573 | The loops give the items of the matrix, the three counts are those of its verdicts, and it is complete exactly when no item is missing. |
| CoverageMatrix.CompleteExactly | evolution/app/dossier/compiler.py:320-573 | A matrix is complete if and only if there is a contract and the trace fulfils it: artifacts, stages, fields, memory, review and subagents. |
| CoverageMatrix.CompleteStays | evolution/app/dossier/compiler.py:320-573 | More deliveries, reviewers, recalls or review calls never turn a complete matrix incomplete. |
| LlmConfigs.Repository.Create | evolution/app/core/db.py:1601-1626 | A new row is active exactly when its scope was empty. |
| LlmConfigs.Repository.Update | evolution/app/core/db.py:1629-1671 | Only the given fields change; scope and activity never do. |
| LlmConfigs.Repository.Delete | evolution/app/core/db.py:1674-1700 | Deleting an active row activates exactly the remaining row of the scope with the smallest id. |
| LlmConfigs.Repository.Activate | evolution/app/core/db.py:1703-1720 | The row becomes the only active one of its scope; other scopes are untouched. |
| LlmConfigs.Repository.MigrateMulti | evolution/app/core/db.py:994-1052 | The row of the old table moves into an empty new one; otherwise only the old table goes. |
| LlmConfigs.Repository.MigrateScope | evolution/app/core/db.py:1055-1107 | Without the scope column every row gets exactly one copy in the executor scope; with it nothing changes. |
| LlmConfigs.Repository.Migrate | evolution/app/core/db.py:994-1107 | Both migrations keep one active row per scope, a second run changes nothing, and exactly when the executor scope stays empty. |
| LlmConfigs.Repository.Run | evolution/app/core/db.py:994-1107 | From whatever an older service left, after the migrations of the start and any operations and restarts, each scope with rows has exactly one active row. |
| Benchmark.ProductMeaning | evolution/app/benchmark/repo.py:50-56 | A batch has exactly the combinations of versions and cases. |
| Benchmark.BenchmarkRuns.CreateBatch | evolution/app/benchmark/repo.py:37-72 | It appends those rows and changes no other. |
| Benchmark.BenchmarkRuns.GetPending | evolution/app/benchmark/repo.py:78-84 | The due row that was triggered first, or none if none is due. |
| Benchmark.SettledMeaning | evolution/app/benchmark/repo.py:112-123 | A due row ends done if and only if one of its remaining attempts scores, after exactly the attempts up to that one, and failed after using up all three. |
| Benchmark.SettledHolds | evolution/app/benchmark/repo.py:90-127 | What the settled row holds: the score of its last attempt if that scored, the trace of the last attempt that stored one, the shortened error of the last that failed, and one more retry for each failure. |
| Benchmark.BenchmarkRuns.ExecuteOne | evolution/app/benchmark/runner.py:114-156 | One execution, update by update, with the exception handler of the loop. |
| Benchmark.BenchmarkRuns.RunBatch | evolution/app/benchmark/runner.py:106-119 | The loop ends (measure: attempts left over all due rows), leaves nothing pending, and gives every row the result and the number of executions that its own attempts determine, whatever the order of work. |
| Benchmark.BenchmarkRuns.GetBatch | evolution/app/benchmark/repo.py:129-156 | The counts are those of the rows of the batch, and what each status word says about all of them. |

## Left out

Members stated with a restriction:

- FilterExactly.ExactExactly: is about one read; for several reads `FilterHarmless.NothingLostFor` gives a sufficient condition. What one read leaves open another may settle. It speaks of the contents left after the filter: the limit on explored orders comes before it, and the fallback to read windows takes over only when nothing is left.
- SubmitStream.EventsDependOnChunking: for streams without out-of-credit events; `SubmitStream.CreditEndsOneRead` and `SubmitStream.CreditAgainstWhole` say what such an event changes.
- StitchedHeads.InputOrderIrrelevant: for operations that end at distinct sequence numbers, as those of one trace do.
- LiveTrace.OrderIrrelevant: for feeds in which a repeated id brings the same event and different events have different sequence numbers; `LiveTrace.ReorderingShowsExactly` shows that the latter is needed.
- LiveTrace.FollowAndCompare: starts without a detail; a server-sent trace snapshot is not an arrival.
- Confluence.SequentialCollapse: assumes that every call starts before it ends, as tool intervals do.
- Heads.ReconstructHeads: assumes distinct event ids in the trace.
- PayloadStore.Store.Keep: the put and its row upsert are one step; a sweep between the two, on an old body without a live row, is not modelled.
- Dossiers.DossierRepo.Run: the deletion of all dossiers of a trace, after which versions start at 1 again, is not an operation of the run.
- EvidenceOverride.Runs.Run: the calls of the approval run one after the other, and the recovery that an approval triggers is left out.
- TraceProjection.Projector.HandleTask: what it says about single entries of the task table assumes that the table has each key once, as a map does.
- Benchmark.BenchmarkRuns.RunBatch: one runner at a time.

Not modelled:

- sha256 is a free constructor, so equal hashes mean equal contents; the printed JSON text is the canonical tree.
- Regular expressions for secrets and for numbered lines are parameters or already matched records; UTF-8 decoding and JSON parsing of frames are parameters.
- Lower-casing of payload keys for letters outside ASCII, dictionary keys that are not strings, floats.
- Labels, summaries, usage, durations and parallel group ids of trace nodes; the first two are read off the raw events that a node holds. Node ids are structured values, so an agent whose name looks like an instance id cannot collide.
- A run summary keeps only its trace id, status and event count.
- The tool list of a chat message (`upsertRunningTool`, `markToolComplete`, `markToolFailed`), the heartbeat timeout, toasts and store wiring.
- Public paths, the internal notify path and development mode of the session middleware, and a clock that goes back.
- Malformed cancel audits in the candidate query; the other evidence gaps of the assessment.
- The joint order of several reads: as in the source, each read is checked on its own.
- Artifact rows without revisions, lineage edges and access audits in the payload tables; the `runs` table that links refer to.
- Encryption of API keys, index creation, and the leaderboard of the benchmark.
- Prompts, judging, semantic induction and the index and role views of a dossier; the evidence gaps of a compilation are an input.
