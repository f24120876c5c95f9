# Operation Kit: models and proofs

This project models the parts of Operation Kit where state, order or arithmetic decide what a
user sees, and proves what those parts keep. `dafny verify dfyconfig.toml` checks everything.

| module | what it models |
|---|---|
| `DragRank` | dragging a row on the development board, through the client's neighbour ids, the server's rank and the next listing |
| `PlanningSync` | the planning panel mirroring the planner's log by offset polling, with an optimistic echo, interleaved with the server |
| `Calendar`, `DateKeys`, `CostRanges` | civil dates after section 21.4.1 of ECMA-262, `YYYY-MM-DD` keys, the two date shifters, presets, pickers, last month, day counts |
| `TranscriptEvidence`, `FallbackBackfill` | the job that reconciles fallback flags, `ran_model` and the activity log with session transcripts |
| `ProposalSplitter` | cutting an assistant message into text and proposal cards |
| `MessageGroups` | grouping a session's messages for display |
| `MermaidBlocks` | rewriting mermaid fences to blocks on load and back on save |
| `PosixPath`, `NotePaths` | resolving links inside notes, against `posixpath.normpath` |
| `TestIntegrity` | the gate that refuses narrowed suites and unjustified test deletions |
| `OrgSlug` | organisation names, slugs, workspace paths and the selection read back from them |
| `DashboardFetch`, `ObjectiveSearch` | sequence numbers that discard overtaken answers |
| `StrategyIndex`, `Workflow` | the children index against the filter, status counts, and the status workflow |
| `Text`, `Options`, `SessionTypes`, `ObjectiveStatus` | shared definitions |

Code that updates state is a class or a method with loops, and its `ensures` ties the new state
to a function of the old one; the laws are lemmas about those functions, over every input, every
run or every interleaving.

Some of what the code's comments promise does not hold for every input. For these the condition
is proved in both directions:

- A dropped row is listed where it was dropped if and only if the row above the drop point is
  absent or already ranked (`DragRank.DropThenReload`).
- The planning panel shows exactly a prefix of the log at every moment if and only if each
  acknowledged message is the log entry at the panel's count, no entry already shown changes as
  it is read, and no applied answer holds an entry changed since it was served
  (`PlanningSync.MirrorTheorem`). While the log only grows, the first alone decides
  (`PlanningSync.GrowingLogMirror`); a reply caught while it streams in stays cut on the screen
  for good (`PlanningSync.StreamedReplyStaysCut`). A message stored at that count still breaks the mirror when it is read back changed, by its
  attachments or by redaction (`PlanningSync.AlignedAtCount`, `PlanningSync.LoneMessageMirrored`). The
  comment at `PlanningPanel.tsx:72-75` says that after a dropped answer the next tick fetches
  cleanly; the early return leaves the flag set, so polling stops for good, and it stops exactly
  when an answer is dropped (`PlanningSync.StuckIffReplyDropped`, `PlanningSync.StuckForever`),
  that is when a message is acknowledged during a fetch whose answer comes later
  (`PlanningSync.StuckIffAckDuringDeliveredFetch`).
- `shiftDate` and `shiftKey` agree except when the result is the last day of the `Date` range
  (`DateKeys.AnchorsAgree`), and "last month" yields date keys exactly from year 1000 on
  (`CostRanges.LastMonthKeysIff`).
- A second backfill run leaves the activity log alone if and only if the first flagged nothing
  new; a third never changes anything (`FallbackBackfill.SecondRunLog`,
  `FallbackBackfill.ThirdRunChangesNothing`).
- Saving undoes loading exactly when every mermaid fence is plain (`MermaidBlocks.SaveUndoesLoad`).
  Loading keeps every diagram exactly when no fence has a diagram below it, and saving exactly
  when no mermaid block has one, since both drop the children of what they replace
  (`MermaidBlocks.LoadKeepsAllSourcesIff`, `MermaidBlocks.SaveKeepsAllSourcesIff`).
- `ran_model` is the same however the transcripts are listed if and only if, of any two models
  with equal totals, one comes first in every readable transcript that names either
  (`FallbackBackfill.RanModelReorderedIff`); flags, dates and verdicts never depend on the
  listing (`FallbackBackfill.ListingOrder`).
- A keyword answer that can still be shown is for the text in the box exactly while there is one
  (`ObjectiveSearch.KeywordResultsMatch`). An AI answer can still be shown exactly until a
  listed event overtakes it, and it is for the text and workspace on screen exactly when the last
  text typed and the last workspace changed to are those it was asked with
  (`ObjectiveSearch.AiAnswerFate`).
- `resolveRel` agrees with `normpath` exactly when the link never climbs above the root
  (`NotePaths.AgreesWithNormPath`).
- `slugifyOrg` is idempotent unless its cut falls right after a hyphen (`OrgSlug.SlugSettles`).
- Changing the workspace selection on the board keeps it unless the one workspace chosen is no
  slug but begins with one before a query, a hash or a final slash (`OrgSlug.SelectionKeptIff`).

Each of these conditions has a lemma at an input that fails it.

## Model

| member | source | states |
|---|---|---|
| DragRank.DropThenReload | app/server/src/services/dev-items-mutate.ts:327-385 | drop, rank, list again: the board shows the moved list if and only if the row above the drop point is absent or ranked, for any filtered view of one workspace |
| DragRank.NeighboursAreAdjacent | app/client/src/components/DevelopmentPage.tsx:232-239 | the ids sent are the dragged row's two neighbours in the moved list, missing exactly at the ends, never the row itself |
| DragRank.NoNeighbours | app/client/src/components/DevelopmentPage.tsx:235-237 | a drag of a row that is not shown, or onto one, asks for nothing |
| DragRank.MovedBack | app/client/src/components/DevelopmentPage.tsx:232-248 | the moved list is a permutation and the reverse drag restores the original |
| DragRank.MovedKeepsOrder | app/client/src/components/DevelopmentPage.tsx:232-248 | every pair of other rows keeps its relative order |
| DragRank.DevelopmentPage.OnDrop | app/client/src/components/DevelopmentPage.tsx:232-248 | when a drop sends a request, which one, and when the drag ends |
| DragRank.DevItems.RankDevItem | app/server/src/services/dev-items-mutate.ts:327-385 | the refusals and the new table of an accepted request, as the function that `RankRequestLaw` and `RankedIff` determine |
| DragRank.RankRequestLaw | app/server/src/services/dev-items-mutate.ts:352-384 | every accepted request: between neighbours at least 0.000000001 apart exactly halfway with one row written, closer ones only after renumbering the live rows of the workspace by thousands in board order, at an end exactly 1 past the neighbour, an unranked neighbour read as 1 beyond the workspace's true extremes, or as the extreme itself at an end |
| DragRank.DropIsHalfway | app/server/src/services/dev-items-mutate.ts:363-377 | between ranked neighbours: renumbered if and only if they are closer than 0.000000001; otherwise as far above one as below the other, and every other row unchanged |
| DragRank.RankedIff | app/server/src/services/dev-items-mutate.ts:332-350 | a request is carried out if and only if the row is live, a neighbour is named, and every named one is live in the same workspace; otherwise which refusal, and no row changes |
| DragRank.DevItems.Renormalize | app/server/src/services/dev-items-mutate.ts:388-399 | the loop gives the i-th row of the listing rank 1000·i and touches nothing else |
| DragRank.PlaceIsBetween | app/server/src/services/dev-items-mutate.ts:360-382 | under a ranked or absent row, the new rank lies strictly between its neighbours' ranks, renumbered or not |
| DragRank.UnrankedDropIsNotOrdered | app/server/src/services/dev-items-mutate.ts:352-377 | under an unranked row the dragged row always jumps over it |
| DragRank.UnrankedDropExample | app/server/src/services/dev-items-mutate.ts:352-377 | a concrete drop under an unranked row that ends above it |
| DragRank.OthersKeepOrder | app/server/src/services/dev-items-mutate.ts:388-399 | ranking one row never reorders two others, renumbering included |
| DragRank.ListingUnique | app/server/src/services/dev-items-query.ts:165-167 | the board order is total: the same rows have only one listing |
| DragRank.BoardOrder | app/server/src/services/dev-items-query.ts:165-167 | ranked rows first, by rank; equal or absent ranks by the newer row, then the higher id |
| PlanningSync.MirrorTheorem | app/client/src/components/PlanningPanel.tsx:63-87 | in every interleaving, the shown messages are the first `count` log entries, as the server reads them out, at all times if and only if each acknowledged message is the entry at the count when acknowledged, no shown entry changes as it is read, and no applied answer holds an entry changed since it was served |
| PlanningSync.StepMirrorIff | app/client/src/components/PlanningPanel.tsx:71-84 | one step of any kind keeps the mirror if and only if it is an aligned acknowledgement, an unseen change in place, the delivery of an up-to-date answer, or any other step |
| PlanningSync.GrowingLogMirror | app/client/src/components/PlanningPanel.tsx:63-87 | while the log only grows, the mirror holds at all times if and only if every acknowledgement is aligned |
| PlanningSync.StreamingSteps | app/server/src/services/stream-parser.ts:42-98 | a streamed piece and the complete reply are each an append or a change in place of the last reply |
| PlanningSync.ShownNeverChanges | app/client/src/components/PlanningPanel.tsx:67-84 | once the panel has counted an entry, what it shows is only ever added to, whatever changes in the log |
| PlanningSync.StreamedReplyStaysCut | app/server/src/services/stream-parser.ts:79-90 | a poll that catches a reply half-way: the mirror breaks with the next piece and only the first part is shown in every continuation |
| PlanningSync.AlignedAtCount | app/server/src/services/session-followup.ts:126-139 | a message stored exactly at the panel's count is mirrored if and only if what is read back, attachments listed and credentials redacted on writing and reading, is what was typed |
| PlanningSync.AttachmentsAreNotEchoed | app/server/src/routes/objectives-planning.ts:187-213 | where redaction has nothing to do, only a message without attachments is mirrored |
| PlanningSync.LoneMessageMirrored | app/server/src/services/stream-parser.ts:427-430 | a concrete run: a message sent on its own is mirrored exactly when it is read back unchanged |
| PlanningSync.StoredAtCountIff | app/client/src/components/PlanningPanel.tsx:76-84 | between storing and acknowledgement a message sits at the count if and only if no answer holding it was applied and the panel had caught up with what came before it |
| PlanningSync.AtMostOneFetch | app/client/src/components/PlanningPanel.tsx:64-65 | at most one fetch is under way in any run |
| PlanningSync.OnePollCatchesUp | app/server/src/routes/objectives-planning.ts:143-176 | an undisturbed poll of an idle faithful panel shows the whole log |
| PlanningSync.MissingTotalBreaksMirror | app/client/src/components/PlanningPanel.tsx:78-84 | without the total, the fallback count keeps the mirror only for a first fetch |
| PlanningSync.StuckForever | app/client/src/components/PlanningPanel.tsx:64-76 | once the flag is set with no fetch under way it stays so, and only the user's own messages ever appear again |
| PlanningSync.StuckIffReplyDropped | app/client/src/components/PlanningPanel.tsx:76-86 | a run ends stuck if and only if the count guard dropped an answer |
| PlanningSync.StuckIffAckDuringDeliveredFetch | app/client/src/components/PlanningPanel.tsx:72-86 | over whole schedules: polling has stopped if and only if some message was acknowledged during a fetch whose answer was delivered later |
| PlanningSync.OnlyAckDooms | app/client/src/components/PlanningPanel.tsx:76-76 | an answer under way becomes droppable exactly when a send is acknowledged meanwhile |
| PlanningSync.DoomedFetchSticks | app/client/src/components/PlanningPanel.tsx:72-76 | such a fetch, unless it fails outright, ends with polling stopped |
| PlanningSync.NextTickDoesNotFetch | app/client/src/components/PlanningPanel.tsx:72-76 | a concrete run in which the next tick fetches nothing, against the comment |
| PlanningSync.EchoCanDouble | app/client/src/components/PlanningPanel.tsx:189-194 | a concrete run in which a whole poll before the acknowledgement shows a message twice |
| PlanningSync.PlanningPanel.Receive | app/client/src/components/PlanningPanel.tsx:71-86 | the effect of an answer on messages, count and flag |
| PlanningSync.PlanningPanel.BeginFetch | app/client/src/components/PlanningPanel.tsx:63-70 | a fetch starts only with a session and a clear flag, from the current count |
| PlanningSync.PlanningPanel.BeginSend | app/client/src/components/PlanningPanel.tsx:179-189 | a request goes out if and only if none is under way and there is something to send: a draft that is not all white space or a file; it holds exactly the attached files, and the trimmed draft or else the placeholder |
| PlanningSync.SendBegunIsRight | app/client/src/components/PlanningPanel.tsx:180-187 | the same of the step in every interleaving, and nothing else changes |
| PlanningSync.FilesAreListed | app/server/src/routes/objectives-planning.ts:185-191 | the message passed on, line by line: the user's own lines, a blank one, the heading, and one line for each file |
| PlanningSync.AmendRewrites | app/server/src/services/stream-parser.ts:42-98 | a change in place rewrites one reply or tool call and nothing else |
| PlanningSync.PlanningPanel.SendSucceeded | app/client/src/components/PlanningPanel.tsx:190-199 | the echo is appended and the count raised by one |
| Calendar.CivilOfDayNumber | app/client/src/components/CostsPage.tsx:95-99 | day numbers and civil dates are in bijection, leap years included |
| Calendar.BeforeIsEarlier | app/client/src/components/CostsPage.tsx:412-422 | year-month-day order is day-number order |
| Calendar.DayZeroIsMonthEnd | app/client/src/components/CostModule.tsx:59-59 | day 0 of the following month is the last day of the month, December included |
| DateKeys.KeyOrder | app/client/src/components/CostsPage.tsx:417-417 | string order on keys is calendar order |
| DateKeys.KeysLookLike | app/client/src/components/CostModule.tsx:43-47 | keys of concrete days, and the cut of the signed six-digit years of `toISOString` |
| DateKeys.ShiftDate | app/client/src/components/CostsPage.tsx:95-99 | the key of the day `days` later, or nothing outside the `Date` range, computed through setUTCDate at midnight |
| DateKeys.ShiftKey | app/client/src/components/CostModule.tsx:43-47 | the same from noon |
| DateKeys.UtcDate.SetUTCDate | app/client/src/components/CostModule.tsx:45-45 | setting the day of month moves the time by whole days across any month or year end |
| DateKeys.ShiftsAddUp | app/client/src/components/CostsPage.tsx:95-99 | shifting by a and then by b is shifting by a + b, within four-digit years |
| DateKeys.ShiftZero | app/client/src/components/CostsPage.tsx:95-99 | shifting by 0 changes nothing |
| DateKeys.ShiftBack | app/client/src/components/CostModule.tsx:43-47 | shifting back undoes a shift |
| DateKeys.AnchorsAgree | app/client/src/components/CostModule.tsx:42-47 | the two shifters agree on every key and offset if and only if the result is not the last day a `Date` can hold |
| DateKeys.AnchorsDiffer | app/client/src/components/CostModule.tsx:42-47 | a key and offset on which they differ |
| CostRanges.MonthsTile | app/client/src/components/CostModule.tsx:49-65 | last month ends the day before this month starts and begins on a day 1 |
| CostRanges.LastMonthIsAMonth | app/client/src/components/CostModule.tsx:56-62 | last month is day 1 to the last day of the previous month, January and leap years included |
| CostRanges.LastMonthKeysIff | app/client/src/components/CostModule.tsx:58-61 | its start is a date key exactly when the month's year is at least 1000, and so is its end |
| CostRanges.LastMonthMayNotBeKeys | app/client/src/components/CostModule.tsx:58-61 | in January 1000 neither end is a key |
| CostRanges.ComputeRange | app/client/src/components/CostModule.tsx:49-65 | the range each tab asks for, as the function that `TabShows` determines |
| CostRanges.TabShows | app/client/src/components/CostModule.tsx:49-65 | today alone; exactly 7 days ending today; the month so far; the month before; or the days picked, an empty picker meaning today |
| CostRanges.LastMonthIs | app/client/src/components/CostModule.tsx:56-62 | last month as text in every year, unpadded year included |
| CostRanges.PresetLengths | app/client/src/components/CostsPage.tsx:101-106 | the presets are in order and last 7 days, 30 days, and the day of the month |
| CostRanges.RangeStaysChronological | app/client/src/components/CostsPage.tsx:401-422 | after any sequence of preset, zone and picker changes the range is in calendar order and nothing throws |
| CostRanges.RangeDaysPositive | app/client/src/components/CostsPage.tsx:449-455 | the day count shown is the exact inclusive count and at least 1 |
| CostRanges.DaysCountedInRange | app/client/src/components/CostsPage.tsx:424-431 | there is an average exactly when the range has begun, over 1 to range-length days, all of them only when the range is over |
| CostRanges.AvgPerDay | app/client/src/components/CostsPage.tsx:424-437 | no average before the range begins; otherwise cost and tokens, each times the days that have happened, give back the totals |
| CostRanges.CostsPage.ChangeDate | app/client/src/components/CostsPage.tsx:412-422 | the picker's effect on preset and range |
| CostRanges.PickedRange | app/client/src/components/CostsPage.tsx:412-422 | the picked day becomes the end it was picked for and the other end stays, unless that turns the range around: then it is that one day |
| CostRanges.ChangeSets | app/client/src/components/CostsPage.tsx:401-422 | which of preset and range each control sets, and when it changes nothing |
| TranscriptEvidence.BelongsToOne | scripts/backfill-fable-attribution.ts:61-61 | a transcript file belongs to at most one objective |
| TranscriptEvidence.BelongsIff | scripts/backfill-fable-attribution.ts:61-61 | an objective's transcripts are exactly the files named `cc-`, its id, `-`, anything, `.jsonl` |
| TranscriptEvidence.DetectsFallbackIff | app/server/src/services/model-attribution.ts:85-93 | genuine evidence: a requested model other than the fallback, and turns of the fallback, a switch to it, or no turns at all and a result by it |
| TranscriptEvidence.Scan | scripts/backfill-fable-attribution.ts:68-78 | the nested loops compute the tally |
| TranscriptEvidence.TotalsAreSums | scripts/backfill-fable-attribution.ts:75-75 | the merged totals are the per-model sums over the readable files |
| TranscriptEvidence.TotalsIgnoreOrder | scripts/backfill-fable-attribution.ts:68-78 | directory order changes neither the totals nor the counts of genuine sessions and switches |
| TranscriptEvidence.SortIgnoresOrderIff | scripts/backfill-fable-attribution.ts:71-80 | the sorted list is the same for every directory order if and only if, of any two models with equal totals, one comes first in every readable file that names either |
| TranscriptEvidence.FirstOfRan | scripts/backfill-fable-attribution.ts:75-80 | two models with equal totals are listed in the order in which the files first name them |
| TranscriptEvidence.TiesFollowTheFiles | scripts/backfill-fable-attribution.ts:80-81 | two tied models are listed in the order of their files |
| TranscriptEvidence.RanModelsOrdered | scripts/backfill-fable-attribution.ts:80-81 | the list names each observed model once, with its sum, in non-increasing order |
| TranscriptEvidence.SortIsStable | scripts/backfill-fable-attribution.ts:80-80 | models with equal counts keep their first-seen order |
| FallbackBackfill.FlagLaw | scripts/backfill-fable-attribution.ts:93-116 | after a run a scanned objective is flagged if and only if the evidence is genuine and it was flagged or switched, a switch alone sufficing; its date is kept, set or cleared with the flag and nothing else in the row changes but `ran_model`; all others are untouched |
| FallbackBackfill.SwitchesAreGenuine | app/server/src/services/model-attribution.ts:85-93 | an explicit switch to the fallback model is by itself genuine evidence for a Fable objective |
| FallbackBackfill.FableIff | scripts/backfill-fable-attribution.ts:51-53 | the selected objectives are those whose model contains "fable" in any mixture of cases |
| FallbackBackfill.FindingIs | scripts/backfill-fable-attribution.ts:60-84 | the evidence is made of sums over the objective's own files and the list of the models they name |
| FallbackBackfill.FlagsBalance | scripts/backfill-fable-attribution.ts:130-139 | flagged after = flagged before - cleared + newly flagged, and the verdicts partition the selection |
| FallbackBackfill.SecondRunSettled | scripts/backfill-fable-attribution.ts:101-115 | a second run changes no flag, no date and no `ran_model` |
| FallbackBackfill.ListingOrder | scripts/backfill-fable-attribution.ts:58-128 | the same transcripts listed in another order give the same verdicts, flags and dates, and the same database and log when every tie is settled |
| FallbackBackfill.RanModelReorderedIff | scripts/backfill-fable-attribution.ts:80-104 | the row written for an objective is the same for every listing of the directory if and only if its transcripts settle every tie, for model names without commas |
| FallbackBackfill.SecondRunReordered | scripts/backfill-fable-attribution.ts:101-115 | a second run over another listing changes no flag and no date, and no row at all when every tie is settled |
| FallbackBackfill.LogLaw | scripts/backfill-fable-attribution.ts:106-127 | over a run each objective's flag entries change only by its own verdict: none left, all rewritten, one more, or as they were |
| FallbackBackfill.OtherEntriesStay | scripts/backfill-fable-attribution.ts:107-127 | over a run every log entry that is no flag entry of a selected objective stays unchanged and in order, and the only other additions are one note for each flag cleared, with the number of flag entries deleted |
| FallbackBackfill.FlagEntriesAfterRun | scripts/backfill-fable-attribution.ts:106-127 | the flag entries of each selected objective after a run, from what was stored and what its transcripts say, literal columns included |
| FallbackBackfill.WithoutIsFiltered | scripts/backfill-fable-attribution.ts:116-116 | the deletion keeps exactly the entries that are no flag entry of the objective |
| FallbackBackfill.FilteredPlaces | scripts/backfill-fable-attribution.ts:116-116 | what is kept sits at increasing places of the old log, and every entry to keep has its place |
| FallbackBackfill.SecondRunLog | scripts/backfill-fable-attribution.ts:106-127 | the second run leaves the log alone if and only if the first flagged nothing new |
| FallbackBackfill.SecondRunMayRewrite | scripts/backfill-fable-attribution.ts:118-127 | a concrete database whose log the second run rewrites |
| FallbackBackfill.ThirdRunChangesNothing | scripts/backfill-fable-attribution.ts:60-128 | from the second run on the job changes nothing at all |
| FallbackBackfill.Database.Backfill | scripts/backfill-fable-attribution.ts:58-139 | the whole job: tables, log and every counter of the summary, and no write in a dry run |
| FallbackBackfill.Database.Reconcile | scripts/backfill-fable-attribution.ts:101-127 | the writes for one objective |
| FallbackBackfill.SummaryAddsUp | scripts/backfill-fable-attribution.ts:134-139 | the printed flag counts balance and the selection is the same after the run |
| FallbackBackfill.CountIsSize | scripts/backfill-fable-attribution.ts:106-127 | each printed counter is the number of objectives with its verdict |
| FallbackBackfill.WrittenIsSize | scripts/backfill-fable-attribution.ts:101-104 | the `ran_model` figure is the number of rows whose list the run changes |
| FallbackBackfill.FlaggedInIff | scripts/backfill-fable-attribution.ts:56-56 | the ids printed are those of the flagged objectives |
| ProposalSplitter.SplitObjectiveProposals | app/client/src/components/SessionMessages.tsx:14-33 | the scanner loop terminates and computes the split |
| ProposalSplitter.SplitTiles | app/client/src/components/SessionMessages.tsx:20-30 | the segments come from consecutive stretches tiling the whole text, each proposal one opener, a fence-free payload and one fence |
| ProposalSplitter.MatchAtIff | app/client/src/components/SessionMessages.tsx:20-22 | an opener begins a proposal if and only if a fence comes after it, newline or not; it ends at the first such fence and drops one newline |
| ProposalSplitter.WordsHoldNoProposal | app/client/src/components/SessionMessages.tsx:20-30 | no text segment holds a whole proposal |
| ProposalSplitter.ResplitIsStable | app/client/src/components/SessionMessages.tsx:14-33 | splitting a text segment again returns it unchanged |
| ProposalSplitter.RoundTrip | app/client/src/components/SessionMessages.tsx:14-33 | any list of texts and trimmed payloads, written out with fences, is read back exactly |
| ProposalSplitter.PayloadComesBackTrimmed | app/client/src/components/SessionMessages.tsx:24-24 | a payload between opener-free texts comes back without the white space at its two ends, with both texts intact |
| Text.SpaceCodes | app/client/src/components/PlanningPanel.tsx:181-181 | the white space that `trim` takes off, by code point, after the WhiteSpace and LineTerminator productions of ECMA-262 |
| MessageGroups.GroupMessages | app/client/src/components/SessionMessages.tsx:411-441 | the grouping loop computes the groups and numbers them from 0 |
| MessageGroups.GroupingLaw | app/client/src/components/SessionMessages.tsx:419-441 | flattened, the groups are the kept messages in order; none is empty; tool groups adjoin only across a dropped message |
| MessageGroups.GroupingUnique | app/client/src/components/SessionMessages.tsx:408-441 | those laws determine the grouping |
| MessageGroups.ShownIff | app/client/src/components/SessionMessages.tsx:419-435 | a message is shown, once and in its order, if and only if it is no user message, no system note about task progress or notifications, and no reply that the next result, with no other result between, says again up to outer white space |
| MessageGroups.DroppedTextIsShown | app/client/src/components/SessionMessages.tsx:430-435 | every dropped text is shown by a later kept result |
| MessageGroups.Visible | app/client/src/components/SessionMessages.tsx:443-444 | hidden prefix and visible suffix make the whole list, for any cap, 0 hiding nothing |
| MermaidBlocks.NothingLeft | app/client/src/components/DocsPage.tsx:27-57 | loading leaves no fence and saving no mermaid block at any depth |
| MermaidBlocks.LoadedBlock | app/client/src/components/DocsPage.tsx:27-38 | a code block in the language mermaid becomes a block with its text as source; any other block keeps every field and has its children loaded |
| MermaidBlocks.SavedBlock | app/client/src/components/DocsPage.tsx:41-57 | a mermaid block becomes a code block with its source as the one text; any other block keeps every field and has its children saved |
| MermaidBlocks.TextsJoin | app/client/src/components/DocsPage.tsx:59-66 | the text of inline content is that of its items joined in order |
| MermaidBlocks.Idempotent | app/client/src/components/DocsPage.tsx:27-57 | each rewrite done twice is done once |
| MermaidBlocks.LoadSaveLoad | app/client/src/components/DocsPage.tsx:15-17 | without mermaid blocks to start with, load-save-load is load |
| MermaidBlocks.SaveUndoesLoad | app/client/src/components/DocsPage.tsx:15-57 | on such pages saving undoes loading if and only if every fence is plain |
| MermaidBlocks.LoadUndoesSave | app/client/src/components/DocsPage.tsx:15-57 | on fence-free pages loading undoes saving if and only if every mermaid block is plain |
| MermaidBlocks.NotPlainComesBackChanged | app/client/src/components/DocsPage.tsx:27-57 | a fence and a mermaid block that come back changed |
| MermaidBlocks.LoadKeepsAllSourcesIff | app/client/src/components/DocsPage.tsx:27-39 | loading keeps the source of every diagram at every depth, in order, if and only if no mermaid fence has a diagram below it |
| MermaidBlocks.SaveKeepsAllSourcesIff | app/client/src/components/DocsPage.tsx:41-57 | saving keeps them if and only if no mermaid block has a diagram below it |
| MermaidBlocks.CycleKeepsSourcesIff | app/client/src/components/DocsPage.tsx:15-57 | opening and saving a page without mermaid blocks keeps them if and only if no fence is below another |
| MermaidBlocks.NestedDiagramIsLost | app/client/src/components/DocsPage.tsx:27-57 | a fence under a fence lost on loading, a mermaid block under a mermaid block on saving |
| MermaidBlocks.AllOutermostSurvive | app/client/src/components/DocsPage.tsx:27-66 | diagrams that lie below no other diagram survive both rewrites, in order |
| PosixPath.NormPathIdempotent | scripts/test-integrity.py:61-61 | normalising a normal path changes nothing |
| PosixPath.NormPathShape | scripts/test-integrity.py:61-61 | a normal path is absolute when the given one is, keeps exactly two leading slashes, has no `.` part unless it is `.`, and has no `..` after the root |
| PosixPath.JoinsWithOneSlash | scripts/test-integrity.py:61-61 | one slash between the two whether or not the first ends in one; an absolute second path wins |
| PosixPath.SplitPathLaw | scripts/test-integrity.py:75-104 | a path is its directory, the slashes after it and its name; a directory made of slashes keeps them |
| PosixPath.SplitExtOf | scripts/test-integrity.py:62-62 | an extension is split off exactly when its last component has something besides dots before it |
| NotePaths.ResolveRel | app/client/src/components/KnowledgeImport.tsx:80-88 | the loop computes the resolved path |
| NotePaths.AgreesWithNormPath | scripts/test-integrity.py:61-61 | for clean notes and relative links, equal to normpath of join if and only if the link never climbs above the root |
| NotePaths.ClimbingLinkDiffers | app/client/src/components/KnowledgeImport.tsx:84-84 | a link that climbs too far, and the two different paths |
| NotePaths.ResolvedStaysInside | app/client/src/components/KnowledgeImport.tsx:80-88 | however far a link climbs the result has no `..` component |
| NotePaths.RelativeLinkOpens | app/client/src/components/KnowledgeImport.tsx:80-88 | one `../` per folder of p and then q leads from p to q |
| TestIntegrity.Gate | scripts/test-integrity.py:118-155 | exit 0 if and only if no added line skips tests (`AddsSkip`, stated on the text of the line) and every deleted test is justified; exactly the unjustified ones are rejected |
| TestIntegrity.NarrowsIff | scripts/test-integrity.py:44-44 | the pattern finds a line if and only if it contains `.skip(` or `.only(`, or `xit(` or `xdescribe(` at the start or after a non-word character |
| TestIntegrity.AddsSkipIff | scripts/test-integrity.py:118-120 | a line counts if and only if it starts with a plus sign, does not start with three, and skips tests |
| TestIntegrity.DeletedSourcesIff | scripts/test-integrity.py:134-136 | the deleted sources are the deleted files with none of the four test suffixes |
| TestIntegrity.NameMatchIsLongest | scripts/test-integrity.py:75-85 | the match found is at the longest dotted prefix that has one, and none is missed |
| TestIntegrity.NameRule | scripts/test-integrity.py:19-21 | for `dir/a.b.test.ts` the names tried are exactly `dir/a.b` and `dir/a` with the source extensions |
| TestIntegrity.NameRuleAtRoot | scripts/test-integrity.py:75-85 | the same for a test in the root directory |
| TestIntegrity.NameMatch | scripts/test-integrity.py:75-85 | the popping loop computes the match |
| TestIntegrity.Resolve | scripts/test-integrity.py:59-72 | the first candidate that is in the tree |
| TestIntegrity.CandidatesAre | scripts/test-integrity.py:59-72 | the candidates in order: the path, for an emitted extension the six sources of its stem, the path with the six source extensions, and its six index files |
| TestIntegrity.ImportMatch | scripts/test-integrity.py:88-104 | accepted if and only if there is an import and every import resolves to a deleted source |
| TestIntegrity.MoreDeletionsStayAllowed | scripts/test-integrity.py:134-148 | deleting more never turns an allowed test into a rejected one |
| TestIntegrity.KeptFileNeverHelps | scripts/test-integrity.py:28-31 | a kept file more in the base tree never turns a rejected test into an allowed one |
| TestIntegrity.WitnessIsNotATest | scripts/test-integrity.py:28-30 | no test file is ever the matched source |
| OrgSlug.HyphenatedIsRuns | app/client/src/components/WorkspaceFilterBar.tsx:36-41 | before the cut a slug is the runs of letters and digits joined by single hyphens |
| OrgSlug.RunsHoldLetters | app/client/src/components/WorkspaceFilterBar.tsx:39-39 | the runs hold every letter and digit of the name, in order |
| OrgSlug.SlugShape | app/client/src/components/WorkspaceFilterBar.tsx:29-42 | no double hyphen, no leading hyphen, at most 41 characters |
| OrgSlug.LongEnoughIsAccepted | app/client/src/components/WorkspaceFilterBar.tsx:80-84 | the form's length check is exactly the server's rule |
| OrgSlug.SlugSettles | app/client/src/components/WorkspaceFilterBar.tsx:36-42 | a third application equals the second; the second differs from the first if and only if the hyphenated name is longer than 41 and its 41st character is a hyphen |
| OrgSlug.SlugMayLoseItsHyphen | app/client/src/components/WorkspaceFilterBar.tsx:41-41 | a name whose slug changes when slugged again |
| OrgSlug.PathRecoversSlug | app/client/src/App.tsx:54-58 | a slug is read back from its path, with or without a final slash |
| OrgSlug.WorkspaceFromPathIff | app/client/src/App.tsx:54-58 | a path gives a workspace if and only if it is `/w/`, 1 to 41 slug characters with no hyphen first, and perhaps one more slash |
| OrgSlug.SelectionKeptIff | app/client/src/App.tsx:110-113 | a changed selection survives the address bar unless, on the board, it is one workspace that is no slug while its name up to the first `?` or `#` is one, perhaps with a slash after it, and not the one shown already |
| OrgSlug.ManyAreRemembered | app/client/src/App.tsx:148-158 | no workspace or several: kept and remembered, and the board goes to the root path |
| OrgSlug.AwayPathStays | app/client/src/App.tsx:153-157 | away from the board a choice is kept and remembered and the path stays |
| OrgSlug.TailIsDropped | app/client/src/App.tsx:148-158 | from `/`, choosing a slug followed by a query or a slash selects the bare slug |
| OrgSlug.NewOrganisationIsSelected | app/client/src/components/WorkspaceFilterBar.tsx:88-92 | a new organisation ends up selected, remembered and in the path |
| OrgSlug.AppContent.HandleWorkspacesChange | app/client/src/App.tsx:148-158 | the handler together with the path effect it triggers |
| DashboardFetch.AppliedIncrease | app/client/src/components/Dashboard.tsx:182-207 | under any arrival order the applied request numbers strictly increase and each part of the screen is the newest applied |
| DashboardFetch.OlderNeverShown | app/client/src/components/Dashboard.tsx:182-187 | after a refetch starts no older answer is ever applied |
| DashboardFetch.ShownIffStillNewest | app/client/src/components/Dashboard.tsx:191-198 | an answer is applied if and only if no request started since its own |
| DashboardFetch.ErrorStep | app/client/src/components/Dashboard.tsx:198-206 | the error goes with an answer that is shown, comes with the loss of the newest request, and otherwise stays |
| DashboardFetch.Dashboard.Receive | app/client/src/components/Dashboard.tsx:193-202 | the effect of an answer, part by part |
| ObjectiveSearch.SwitchInvalidates | app/client/src/components/ObjectiveSearchPanel.tsx:138-147 | after a mode switch nothing that was under way is ever applied |
| ObjectiveSearch.KeywordResultsMatch | app/client/src/components/ObjectiveSearchPanel.tsx:81-105 | a keyword answer that can still be shown is for the text in the box if and only if there is one, and then, in the open panel, for the workspace on screen |
| ObjectiveSearch.AiAnswerFate | app/client/src/components/ObjectiveSearchPanel.tsx:107-132 | over any events after an AI request: its answer is applied if and only if none overtakes it, and is for the text and workspace on screen if and only if the last typed and the last changed to are those it was asked with |
| ObjectiveSearch.CounterMovesIff | app/client/src/components/ObjectiveSearchPanel.tsx:79-147 | exactly which events overtake the requests under way |
| ObjectiveSearch.OpeningResets | app/client/src/components/ObjectiveSearchPanel.tsx:67-77 | opening starts afresh whatever the panel held |
| ObjectiveSearch.TypingSearches | app/client/src/components/ObjectiveSearchPanel.tsx:81-105 | in keyword mode new text starts the debounce with the trimmed text, or clears the results if it is all white space |
| ObjectiveSearch.TypingInAiMode | app/client/src/components/ObjectiveSearchPanel.tsx:179-179 | in AI mode new text clears the results and sends nothing |
| ObjectiveSearch.AskingWaits | app/client/src/components/ObjectiveSearchPanel.tsx:107-113 | asking needs words, drops the last error and waits |
| ObjectiveSearch.SwitchingClears | app/client/src/components/ObjectiveSearchPanel.tsx:138-147 | what a switch of modes drops and keeps |
| ObjectiveSearch.AnswersShow | app/client/src/components/ObjectiveSearchPanel.tsx:91-129 | an applicable answer replaces the results of its kind and ends the wait; a failure empties them |
| ObjectiveSearch.SpinnerHasCause | app/client/src/components/ObjectiveSearchPanel.tsx:90-129 | while the panel is open, loading means an answer is still to come |
| ObjectiveSearch.ClearedQueryStillShows | app/client/src/components/ObjectiveSearchPanel.tsx:84-88 | a concrete run showing results under an empty box |
| ObjectiveSearch.AiResultsCanBeStale | app/client/src/components/ObjectiveSearchPanel.tsx:107-117 | a concrete run showing AI results under a different text |
| ObjectiveSearch.AiResultsOfAnotherWorkspace | app/client/src/components/ObjectiveSearchPanel.tsx:107-117 | a concrete run showing AI results of another workspace |
| StrategyIndex.ChildrenByStrategy | app/client/src/components/StrategiesPage.tsx:111-126 | looking any strategy up in the index gives exactly the detail page's filtered list |
| StrategyIndex.ChildIff | app/client/src/components/StrategiesPage.tsx:108-118 | the children of a strategy are the objectives assigned to it or directly under it, strategies left out |
| StrategyIndex.BucketCounts | app/client/src/components/StrategiesPage.tsx:56-65 | what each bucket counts, and that the four sum to the total |
| Workflow.ReachableIff | app/shared/workflow.ts:3-55 | which statuses each type can ever be in, both directions |
| Workflow.EnteredFrom | app/shared/workflow.ts:3-55 | the table read the other way: from where each status can be entered, for every type |
| Workflow.LegacyEnteredFrom | app/shared/types-runtime.ts:318-326 | the same for the legacy table |
| Workflow.FirstReviewComesFromWorking | app/shared/workflow.ts:7-33 | the first entry to either review comes straight from working |
| Workflow.WorkBetweenDoneAndReview | app/shared/workflow.ts:7-33 | a spell of working lies between any status outside review and a later review |
| Workflow.LighterTypesRestrict | app/shared/workflow.ts:16-33 | exactly which moves a bug and a task lack |
| Workflow.RetireAndReopen | app/shared/workflow.ts:4-6 | cancelling, finishing and reopening, for every reachable status, and a missing type read as a task |
| Workflow.CardButtonsWork | app/client/src/components/ObjectiveCard.tsx:22-34 | every button is an allowed move at every moment of every run |
| Workflow.CardButtonsAllowedIff | app/client/src/components/ObjectiveCard.tsx:23-23 | the one table entry where a button would be refused |
| Workflow.ButtonsLeadTo | app/client/src/components/ObjectiveCard.tsx:22-34 | the buttons, by where they lead |
| Workflow.LegacySimulated | app/shared/types-runtime.ts:318-326 | every legacy run is simulated by a project run through the same statuses in order, with working and cancelled between done and queue and nothing else between any two |
| Workflow.LegacyMoveIff | app/shared/types-runtime.ts:324-325 | only leaving done needs simulating, and three moves are the fewest |

## Left out

- Rendering, styling, navigation chrome, keyboard handling and the browser's storage, beyond the two remembered workspace values.
- HTTP, SQLite and git themselves: requests are steps of a run, tables are maps and sequences, and git's reports are inputs of the gate.
- Floating point in ranks: the midpoint is exact here, while two doubles closer than one unit in the last place but farther than 1e-9 (ranks beyond about 4 million) could round to an equal midpoint.
- Paging of the board: `DragRank.DropThenReload` is about one set of shown rows, not about which rows a page holds afterwards.
- Changing objectives while a planning request is under way, and a log that is replaced or gets shorter: a follow-up that makes the server start a new planner session, or the saved transcript read in place of a missing session log. Entries that change in place are modelled.
- What redaction recognises: it is any pair of functions on texts, one for writing and one for reading, that stay the same during a run, while the server reloads its list of known credentials every minute.
- React's stale closures: `sending` is read as current, so two clicks within one render are not modelled.
- Date strings other than keys of real days from 0000 to 9999, such as the longer years some date inputs can produce.
- Time zones and the clock: today is an input, any day from year 0001 on.
- `analyzeStreamAttribution` reading a stream: a transcript is given by its analysis; model names that look like array indices would be enumerated first and are not modelled.
- The wording of log details and console output: details are kept as the figures they print.
- The guarded ALTER TABLE of the backfill: an absent `ran_model` column reads as no value.
- Two message objects that are one and the same object in the list: positions stand for identity in `MessageGroups`.
- The import pattern of the gate: each test's relative imports are an input, in sorted order without duplicates.
- Word boundaries before letters outside ASCII in added test lines, and file names with white space, which the gate's splitting would cut.
- Lower-casing: `OrgSlug` holds for any `toLowerCase` that leaves lower-case slugs alone.
- Dot segments and doubled slashes in a workspace's name, which the router would resolve; no slug has either.
- The member clamp, the stored-selection start-up and authentication of the app shell.
- `scopeObjectives`, `boardColumnOf` and `groupObjectives`, which decide which rows reach the strategy pages.
- The usage meters, formatters, charts and provisioning scripts: plain arithmetic and flag checks.
