# A verified model of the context engine

This project models, in Dafny 4.11, how the repository compacts chat histories and tool output without losing
evidence, and proves the properties its parts rely on. It needs no libraries; `dafny verify dfyconfig.toml` checks it.

Source code that updates state in loops, maps and fields is modelled by methods and classes, each proved against a
specification function; pure source code is modelled by functions. Schedulers are state machines: every stretch of
code between two `await`s is one step, timers, replies, exits and crashes are steps that may happen at any time, and
the classes are proved to take exactly those steps.

| part | modules |
|---|---|
| View edits | `Messages`, `Substitution` (the specification), `Admission`, `Operations` (the loops), `Outcome` (what a caller gets), `Rewriting` (order, recovery, appends) |
| Wire contract and its agreement with the applier | `Contract`, `AlignmentCheck`, `Agreement` |
| Digests | `Quoting`, `Canonical`, `CanonicalProof`, `Digests`, `OperationIds` |
| Planner | `Retention`, `Candidacy`, `Packing`, `Leaves`, `Hierarchy`, `Planning`, `Planner`; with a shared cache `AnalysisCache`, `MessageTokens`, `CachedPlanning`, `StaleCounts` |
| Model-shortened plans | `EnhancedCandidate` |
| Host messages | `HostAdapter` |
| Resumable traversal | `Paging`, `HistoryReader`, `HistoryRuns`, `HistoryReads`, `HistoryLineage`, `NodeRetrieval`, `NodeReads` |
| Summary jobs | `Enhancement`, `EnhancementProof`, `EnhancementSpend`, `EnhancementJobs`, `EnhancementManager` |
| Compressor client | `RtkProtocol`, `RtkProof`, `RtkOutcomes`, `RtkPipe`, `RtkClient` |
| Output folding | `Budget`, `Pipeline` |
| Ownership ledger | `Ownership` |
| Plugin runtime | `Publication`, `PublicationProof`, `PublicationViews`, `MessageEvents`, `PluginRuntime` |

## What the proofs found

* `Paging.ResumableExactly`: a page may end right before a low surrogate that follows no high one, and the next
  page then rejects the cursor it was given (packages/shared/src/paging.ts:57-67). Paged reading works for every
  budget exactly on texts without such a unit.
* `Packing.CutSource`, `Leaves.PackLeaves`, `Planner.BuildLayeredPlan`: the planner throws "cannot fit one source
  character" on a candidate over 8192 tokens whose source ends in a high surrogate, and with a monotone counter that
  fits every code point only then (packages/headroomd/src/layered.ts:348-349).
* `StaleCounts.StalePlanIsRefused`: an analysis is cached under a digest that ignores the order of tool-input keys,
  while the counter reads `JSON.stringify(part.input)`, which does not (packages/headroomd/src/layered.ts:106, 226-230),
  and the engine shares one cache between calls (packages/headroomd/src/engine.ts:145). A message delivered again with
  its keys reordered is counted with the tokens of its earlier form, and the planner then returns a plan that fails its
  own wire contract. This takes a counter that sees the order of keys, as a tokenizer may: `CacheIsFreshExactly` says so
  exactly, and `DefaultCounterIsFresh` that the default counter is not one.
* `EnhancementSpend.RestoreIsForgotten` and `RestoreCountsOverRuns`: the comment at
  packages/headroomd/src/enhancement.ts:121 says that restores may only increase lifetime consumption. A restore
  below an active reservation is absorbed by it, and reconciling the reservation with a small actual usage then
  erases the restored spend. The second lemma says, over whole runs, exactly when a restored usage stays counted.
* `CanonicalProof.UndefinedItemCollides`: `canonicalJSON` prints an undefined list item like the string "undefined".
  `CanonicalExactly` says which values share a text, for all values.
* `Budget.EmptyInputIsOneLonger`: on no lines at all the running length of `applyBudget` misses the line break before
  the footer; on every other input it is exact (`RunningLength`).
* `HostAdapter.EveryMessageHasSource`: the adapter's "Validated range has no host source" is never thrown.

## Assumptions

* Message ids of a planned history are unique, as packages/contracts/src/headroom.ts:69 demands of snapshots. The
  materializer and the wire check are modelled without this assumption.
* SHA-256 is a function from texts to digests. It is assumed injective only where a lemma says so (`Injective`). What
  planner and candidate builder need of operation ids (`NamesFields`, `RenamesApart`) follows from it in `OperationIds`.
* Token counters are arbitrary functions to natural numbers. `PrefixMonotone` (a prefix counts no more than the text)
  and `FitsCharacters` (no code point exceeds a leaf) are assumed only where a clause names them.
* `materialRanges` returns sorted, disjoint, non-empty ranges inside their text (`RangesSound`). All other regular
  expressions, wordings and rankings of the planner are arbitrary functions.
* The rows of one archive have strictly increasing sequence numbers (packages/headroomd/src/store/db.ts:392-420), so
  the indexed seek of the paged reader and the offset of the recursive one visit the same rows.
* Page limits given to `readHistoryPage` are positive, as the parameter schemas require.
* Request, job and session-state identifiers are never used twice.

## Model

| member | source | states |
|---|---|---|
| `Operations.MaterializeOperations` | packages/headroomd/src/layered-operations.ts:13-122 | all edits or none: `applied` exactly when every edit finds its source as it describes it and no two edits meet, told without the order of the operations; then every replaced range gives way to its replacement, every edited output is the new output, every edited text has the new texts in place of the edited slices, and everything else is as before, in order; `no-match` only at the first operation that names an absent message; otherwise the input comes back unchanged |
| `Outcome.AcceptedExactly` | packages/headroomd/src/layered-operations.ts:42-121 | the conditions on sources, parts, digests, ids and pairs of edits, read off the operations themselves, are exactly those under which the specification applies them |
| `Outcome.AppliedOutcome` | packages/headroomd/src/layered-operations.ts:87-121 | what is published, message by message: each replacement once in place of its whole range, and every other message with exactly its own edits |
| `Admission.IndexIds` | packages/headroomd/src/layered-operations.ts:20-25 | the id index is built exactly when the message ids are unique |
| `Admission.BindSnapshot` | packages/headroomd/src/layered-operations.ts:26-34 | the snapshot is accepted exactly when it names a prefix of the history, message by message, with equal digests; digests are kept for that prefix only |
| `Admission.AdmitRange` | packages/headroomd/src/layered-operations.ts:45-60 | a range is refused, unmatched or accepted exactly by its sources (consecutive, unprotected, settled, digest-equal, inside the snapshot, unclaimed) and by the freshness of its replacement id |
| `Admission.AdmitEdit` | packages/headroomd/src/layered-operations.ts:61-70 | a partial edit is accepted exactly when its part, bounds, field digest and message are as the operation says and no range claimed the message |
| `Admission.Admit` | packages/headroomd/src/layered-operations.ts:42-76 | the admission loop stops at the first operation that conflicts with an earlier one, and its books describe exactly the operations admitted |
| `Operations.SortParts` | packages/headroomd/src/layered-operations.ts:77-86 | sorting each part and comparing neighbours succeeds exactly when no two edits of one part overlap |
| `Operations.RewriteText` | packages/headroomd/src/layered-operations.ts:96-106 | for sorted, separated edits the text the loop joins is the part with every edited slice replaced and nothing else changed, as the walk over the positions of the text gives it |
| `Operations.RewriteMessages` | packages/headroomd/src/layered-operations.ts:87-109 | the message loop edits every touched part, and only those, as the specification does whose output `Outcome.AppliedOutcome` describes |
| `Operations.Assemble` | packages/headroomd/src/layered-operations.ts:110-119 | the streaming loop over sorted ranges gives the walk of the specification |
| `Operations.OutputDecides` | packages/headroomd/src/layered-operations.ts:120 | the final uniqueness test of output ids holds exactly when the replacement ids are distinct |
| `Substitution.SubstituteUnique` | packages/headroomd/src/layered-operations.ts:120 | distinct fresh replacement ids keep the ids of the rewritten history unique |
| `Substitution.SubstituteRepeats` | packages/headroomd/src/layered-operations.ts:120 | two ranges that publish one id leave it in the history twice |
| `Substitution.EditsKeepShape` | packages/headroomd/src/layered-operations.ts:87-109 | partial edits keep the number and order of messages, and change each message on its own |
| `Rewriting.OrderIndependent` | packages/headroomd/src/layered-operations.ts:42-121 | any permutation of the operations is accepted or refused alike and gives the same history |
| `Rewriting.Recoverable` | packages/headroomd/src/layered-operations.ts:87-121 | the original history can be rebuilt from the output and the replaced slices |
| `Rewriting.AppendStable` | packages/headroomd/src/layered-operations.ts:26-37 | a view that applies to a history applies to a longer one exactly when the new ids are fresh, and then only the tail is added |
| `AlignmentCheck.OperationSourcesAligned` | packages/contracts/src/headroom.ts:240-277 | the loops over mutable sets and span lists return true exactly when the declarative alignment condition holds |
| `AlignmentCheck.CheckSources` | packages/contracts/src/headroom.ts:253-262 | one turn of the source loop passes exactly when ids, digests, consecutive positions and earlier ranges are in order |
| `AlignmentCheck.SortedDecides` | packages/contracts/src/headroom.ts:271-274 | sorting spans by start and comparing neighbours decides whether all of them are clear of each other |
| `AlignmentCheck.LoopsDecide` | packages/contracts/src/headroom.ts:248-274 | the three loops together accept exactly the pairwise conflict-free operations with sources in the snapshot |
| `AlignmentCheck.CheckLists` | packages/contracts/src/headroom.ts:275-276 | the replaced ids and their digests are exactly the touched ids in snapshot order |
| `Agreement.WireAndApplierAgree` | packages/headroomd/src/layered-operations.ts:42-121 | for plans whose lists are derived from their operations the materializer applies them exactly when the wire check accepts them, the snapshot binds the history, the content facts hold and replacement ids differ |
| `Agreement.AppliedAligned` | packages/headroomd/src/layered-operations.ts:42-121 | an applied operation set always passes the wire check |
| `Agreement.AlignedApplies` | packages/headroomd/src/layered-operations.ts:42-121 | an aligned set whose content facts hold is always applied |
| `Digests.DigestBindsContent` | packages/headroomd/src/turns.ts:107-121 | with an injective hash, equal digests mean equal messages, tool inputs up to key order |
| `Digests.SnapshotBindsSameSource` | packages/headroomd/src/layered-operations.ts:26-34 | a snapshot of one history binds another exactly when that one starts with the same messages |
| `Canonical.EntriesSorted` | packages/headroomd/src/turns.ts:72-74 | the printed entries of an object are strictly sorted by key |
| `Canonical.PrintsJson` | packages/headroomd/src/turns.ts:70-77 | a list is its items between brackets, an object its members by key between braces, with commas between them |
| `Canonical.PrintsScalar` | packages/headroomd/src/turns.ts:66-69 | literals, numbers and quoted strings print as JSON; undefined prints like the string |
| `Quoting.UnescapeEscape` | packages/headroomd/src/turns.ts:69 | reading a printed string, per section 7 of RFC 8259, gives the string back whatever follows it |
| `Quoting.QuoteUnique` | packages/headroomd/src/turns.ts:69 | two printed strings that start the same text are the same string |
| `CanonicalProof.Unique` | packages/headroomd/src/turns.ts:65-78 | a printed value can be cut off any text that starts with it, and identifies the value |
| `CanonicalProof.CanonicalForm` | packages/headroomd/src/turns.ts:61-78 | on values JSON can express two texts are equal exactly when the values are equal up to key order and undefined-valued keys |
| `CanonicalProof.CanonicalExactly` | packages/headroomd/src/turns.ts:65-78 | on all JavaScript values two texts are equal exactly when the values are equal after undefined list items became the string "undefined" and non-finite numbers became null |
| `CanonicalProof.UndefinedItemCollides` | packages/headroomd/src/turns.ts:70-77 | an undefined list item prints like the string "undefined": the text is not injective on all values |
| `OperationIds.DigestsNameFields` | packages/headroomd/src/layered.ts:197 | with an injective hash the planner's operation ids tell message, part and span apart, although the absent bounds of a tool output print like a string |
| `OperationIds.SummaryIsNotPlanned` | packages/headroomd/src/enhanced-candidate.ts:33 | the id of an enhanced operation is never one the planner gives |
| `OperationIds.PlannedIdsApart` | packages/headroomd/src/enhanced-candidate.ts:33 | no planned id comes from another id by enhancing it, once or several times over |
| `OperationIds.PlannedPlansCanBeEnhanced` | packages/headroomd/src/enhanced-candidate.ts:8-33 | with an injective hash every honest plan of the planner meets all that the candidate builder needs of its base |
| `Retention.ComputeRecentStart` | packages/headroomd/src/layered.ts:222-245 | the loop over turn starts finds the start of a turn behind which exactly the retained number of turns start, or the first one when there are fewer |
| `Retention.RetainsOnce` | packages/headroomd/src/layered.ts:244-245 | there is only one such boundary |
| `Retention.BoundaryAdvances` | packages/headroomd/src/layered.ts:244-245 | appending messages only moves the retention boundary forward |
| `Retention.BoundaryBeforeLastUser` | packages/headroomd/src/layered.ts:384-387 | the boundary never lies behind the last user message, so the snapshot covers everything older |
| `Retention.NoUserNoHistory` | packages/headroomd/src/layered.ts:222-245 | a history without user messages is one turn and nothing of it may be edited |
| `Retention.GuardNeverTightens` | packages/plugin/src/host-adapter.ts:92-102 | a plan built below the boundary of a history passes the retention guard of every longer history |
| `HostAdapter.ProjectMessage` | packages/plugin/src/host-adapter.ts:11-57 | a message is projected exactly when its id and role allow it: its texts and tool calls in order, each with the fields the wire shows, protected exactly when an error, an ignored text, an attachment, an unfinished call, compacted or interrupted output or an opaque part is hidden |
| `HostAdapter.ProjectMessages` | packages/plugin/src/host-adapter.ts:59-62 | the history is projected exactly when every message is |
| `HostAdapter.TouchesRecent` | packages/plugin/src/host-adapter.ts:94-102 | the guard refuses exactly the plans that name a retained message |
| `HostAdapter.OverlayParts` | packages/plugin/src/host-adapter.ts:115-126 | the n-th text or tool call takes the text, output and error of the n-th wire part; every other part stays as it is, in its place |
| `HostAdapter.HostHistory.ApplyHostView` | packages/plugin/src/host-adapter.ts:85-143 | the view is published exactly when the guards pass and the operations apply, and is unmatched exactly when the materializer says so behind the guards; the new history carries the published one message by message, each on the host message of its id, or as a bare message in the session of the first replaced one; nothing changes otherwise |
| `HostAdapter.EveryMessageHasSource` | packages/plugin/src/host-adapter.ts:110-132 | the adapter's `throw` is never reached |
| `HostAdapter.ProjectionCommutes` | packages/plugin/src/host-adapter.ts:105-129 | for tool-output and text-range edits, projecting the rebuilt host history is rewriting the projected one; metadata and opaque parts keep their places |
| `Candidacy.CollectCandidates` | packages/headroomd/src/layered.ts:247-263 | the candidates, in history order, are exactly these: settled tool outputs without a marker that are safe to replace and material ranges of texts, before the boundary, in messages that are neither protected nor carry over 64 events, with more tokens than the shortest replacement |
| `Candidacy.ChosenExactly` | packages/headroomd/src/layered.ts:247-263 | membership in the specified list is that condition on message, part and observation, with digest, count, text and key as the source takes them |
| `Candidacy.CandidatesAre` | packages/headroomd/src/layered.ts:150-182 | every candidate describes its part as it is, and candidates are ordered and disjoint |
| `Candidacy.PlannedEditsApply` | packages/headroomd/src/layered.ts:195-199 | whatever the heuristics, counter and replacements, the planner's own edits apply to the history they were made for |
| `Packing.Bisect` | packages/headroomd/src/layered.ts:338-347 | with a monotone counter bisection finds the largest end that fits |
| `Packing.TileEnd` | packages/headroomd/src/layered.ts:337-349 | a tile is never empty, never splits a surrogate pair, with a monotone counter fits a leaf and could not be longer; it fails exactly on a lone trailing high surrogate |
| `Packing.CutSource` | packages/headroomd/src/layered.ts:331-353 | an oversized source is tiled without gap or overlap into tiles that could not be longer; with a monotone counter that fits every code point cutting throws exactly when the source ends in a high surrogate |
| `Packing.CutSourceThrows` | packages/headroomd/src/layered.ts:348-349 | such a source exists: 8192 letters and half a surrogate pair, counted by code units |
| `Packing.TilesPasteBack` | packages/headroomd/src/layered.ts:337-352 | the tiles of a source, pasted together, are the source |
| `Packing.LeafPacker.AddPiece` | packages/headroomd/src/layered.ts:323-330 | pieces are kept in order, and a leaf is closed only when it is full or the next piece or its events would not fit |
| `Packing.LeafPacker.Flush` | packages/headroomd/src/layered.ts:309-322 | closing the group adds it as one leaf and empties it |
| `Leaves.PackLeaves` | packages/headroomd/src/layered.ts:305-354 | every piece lands in exactly one leaf, in order; leaves hold at most 64 events, each from a source of that leaf, and with a monotone counter at most 8192 source tokens |
| `Leaves.EveryCandidateHasALeaf` | packages/headroomd/src/layered.ts:355-357 | every candidate ends with at least one leaf |
| `Leaves.NodesAreHolders` | packages/headroomd/src/layered.ts:316-320 | a candidate's node ids are exactly those of the leaves that hold a piece of it |
| `Leaves.SourceIsField` | packages/headroomd/src/layered.ts:333-335 | the text that is cut is the tool output or the named range of the text |
| `Leaves.LeafNodeTells` | packages/headroomd/src/layered.ts:309-315 | the node of a leaf lists message, digest, part and bounds of each of its pieces in order, carries the events of the leaf and counts the tokens of its pieces |
| `Leaves.LeafNodeIsSound` | packages/contracts/src/headroom.ts:142-147 | the node of every packed leaf passes the leaf provenance rule |
| `Hierarchy.MergePass` | packages/headroomd/src/layered.ts:365-376 | one pass keeps the leaves in order and the tokens in total; it shrinks the frontier or leaves it as it is |
| `Hierarchy.BuildHierarchy` | packages/headroomd/src/layered.ts:361-380 | the loop ends, keeps leaf order and total source tokens, records every parent, and stops only when no four neighbours share a level |
| `Hierarchy.TokensAreRootTokens` | packages/headroomd/src/layered.ts:372 | every parent counts exactly the source tokens of the leaves below it |
| `Planner.SelectMemory` | packages/headroomd/src/layered.ts:402-413 | the greedy pass stays within the budget, keeps only suffixes that leave a replacement shorter than its source, and, in rank order, passes over a candidate only when its suffix would not fit beside what was taken before or would not pay; an entry lists all messages with its observation as its sources |
| `Planner.HistoryBudgetIsMost` | packages/headroomd/src/layered.ts:391-393 | the history budget is the largest number within 4096, the memory limit and its share of the window whose sum with the larger of the baseline and of retained tail and wrappers stays within target and window share, and 0 when there is none |
| `Planner.SumCountsAdds` | packages/headroomd/src/layered.ts:391 | wrapper tokens add up over the candidates |
| `Planner.PlannedOperations` | packages/headroomd/src/layered.ts:384-415 | the planner's operations apply to the history, name no retained message, and correspond to the candidates one to one |
| `Planning.ListsAgree` | packages/headroomd/src/layered.ts:419-432 | refs and replaced ids computed from affected positions are the lists the contract derives from the operations |
| `Planning.UnaffectedStay` | packages/headroomd/src/layered.ts:416-420 | messages without candidates are published unchanged |
| `Planning.RetainedIsUntouched` | packages/headroomd/src/layered.ts:419-421 | the retained tokens are exactly those of the messages no operation touches |
| `Planning.RefsTell` | packages/headroomd/src/layered.ts:419-432 | a reference gives digest and role of its message and the number of turns before its own |
| `Planning.FinishedIsValid` | packages/headroomd/src/layered.ts:415-437 | a finished draft, compacted or inert, passes the whole wire contract exactly when the counts of the analyses hold no more retained tokens than the fresh count of what is left |
| `Planning.FreshIsValid` | packages/headroomd/src/layered.ts:415-437 | with fresh counts every finished draft passes the whole wire contract |
| `Planner.Finish` | packages/headroomd/src/layered.ts:415-437 | the plan compacts exactly when its operations take the history below the raw total of the analyses, claims the totals of the rewritten history, and is valid exactly when the retained count does not exceed them |
| `Planner.BuildLayeredPlan` | packages/headroomd/src/layered.ts:207-438 | for every history with unique ids, every option set, every counter and whatever counts the analyses hold, fresh or cached: a compacting plan applies to the history, leaves the retained tail alone, claims exactly the tokens that applying it leaves, edits exactly the candidates with the markers of the leaves that hold them, the diagnosis of a failure and the suffixes the memory pass took; its budget is the largest with room and its memory the greedy choice under it; it carries a node for every leaf and, over target, every parent of the hierarchy; the plan passes the wire contract exactly when the stored counts hold no more retained tokens than are left, so always with fresh counts |
| `AnalysisCache.LayeredCache.Get` | packages/headroomd/src/layered.ts:44 | a hit returns the stored analysis and makes it the most recently used, the others keeping their order |
| `AnalysisCache.LayeredCache.Set` | packages/headroomd/src/layered.ts:45-56 | an analysis takes the place of one with its key as the newest, and as many of the newest stay as both bounds admit; one that alone exceeds the bytes is left out; each key stays once and the byte counter is exact |
| `AnalysisCache.EvictIs` | packages/headroomd/src/layered.ts:50-53 | only the oldest entries go, and only as many as must |
| `AnalysisCache.AnalyzeAll` | packages/headroomd/src/layered.ts:222-231 | the analysis loop takes each count from the cache as the earlier messages left it, and stores what it counts |
| `AnalysisCache.DecidedIsFresh` | packages/headroomd/src/layered.ts:226-230 | the counts are fresh when messages that share a digest share a count, whatever earlier calls stored |
| `CachedPlanning.CacheIsFreshExactly` | packages/headroomd/src/layered.ts:226-230 | cached counts are fresh for all histories and cache sizes exactly when the counter does not see the order of tool-input keys |
| `CachedPlanning.StoredObservationsAgree` | packages/headroomd/src/layered.ts:150-182 | everything else in a stored analysis is the same for all messages with its digest |
| `CachedPlanning.DefaultCounterIsFresh` | packages/shared/src/tokens.ts:19-21 | with the default counter, which measures length alone, cached counts are fresh for every history and every cache |
| `MessageTokens.EstimateIgnoresOrder` | packages/headroomd/src/layered.ts:105-107 | messages that differ only in the order of input keys are counted over texts of one length, so the default counter agrees on them |
| `MessageTokens.StringifyLength` | packages/headroomd/src/layered.ts:106 | on values JSON can express `JSON.stringify` prints as many units as the canonical printer, in whatever order the keys stand |
| `StaleCounts.CountIsStale` | packages/headroomd/src/layered.ts:106 | with a counter that sees key order, a message delivered again with its input keys reordered is counted as it was before |
| `StaleCounts.StalePlanIsRefused` | packages/headroomd/src/layered.ts:207-438 | two calls of the planner with one cache, at that input: the second returns a plan that compacts and fails the wire contract, whatever else the heuristics, options, naming and stored nodes are |
| `CachedPlanning.PlanWithCache` | packages/headroomd/src/layered.ts:207-438 | planning through a shared cache gives the plan for the counts the cache holds, valid exactly when they hold no more retained tokens than are left, and so valid and truthful whenever digests decide counts; it leaves the cache fit for the next call |
| `CachedPlanning.PlanTwice` | packages/headroomd/src/engine.ts:145-167 | of two calls that share a new cache the second plans with the counts the first one left |
| `EnhancedCandidate.RewriteLoop` | packages/headroomd/src/enhanced-candidate.ts:27-34 | the loop with its first-place flag makes every operation of the node point to the new one, with the note behind the first marker only, and leaves the others alone |
| `EnhancedCandidate.NoteShownOnce` | packages/headroomd/src/enhanced-candidate.ts:27-34 | each operation of the result is the old one, or the same place with the marker of the new node, a new id, and the note exactly at the first rewritten place |
| `EnhancedCandidate.RewrittenApplies` | packages/headroomd/src/enhanced-candidate.ts:28-34 | the rewritten operations apply wherever the old ones did |
| `EnhancedCandidate.RewrittenStaysApart` | packages/headroomd/src/enhanced-candidate.ts:33 | new ids of a plan stay apart under any further renamings, so an enhanced plan can be enhanced again |
| `EnhancedCandidate.LocalApplies` | packages/headroomd/src/enhanced-candidate.ts:35-41 | edits that apply to the history apply to the edited messages alone, bound to a snapshot of just those |
| `EnhancedCandidate.LocalIsWhole` | packages/headroomd/src/enhanced-candidate.ts:35-43 | the token change measured on the edited messages is the change of the whole history |
| `EnhancedCandidate.WholeDelta` | packages/headroomd/src/enhanced-candidate.ts:42-43 | the whole history changes by exactly what its edited messages change by |
| `EnhancedCandidate.RetainedIsLeft` | packages/headroomd/src/enhanced-candidate.ts:49-57 | what no operation touches is a lower bound of the rewritten total, so retained stays within final |
| `EnhancedCandidate.BuildEnhancedCandidate` | packages/headroomd/src/enhanced-candidate.ts:8-59 | for an honest base a candidate is returned exactly when the node is a leaf without failures and constraints, the entries name only its sources, the note has at most 1024 tokens, its operations are partial edits, the whole history gets shorter and the memory stays within budget; it edits the same places, passes the wire contract, adds one node, keeps the memory with other sources, claims the totals of the whole history, strictly below the base, and is itself an honest base |
| `Paging.PaginateText` | packages/shared/src/paging.ts:62-92 | a page holds whole code points within the byte and token limits given, or else 32768 and 2048, and within 131072 and 8192, and the next one would break one of them; each of the three errors occurs exactly in its case |
| `Paging.SizesAreUtf8` | packages/shared/src/paging.ts:71-80 | the size the loop counts for a code point is the length of its encoding in section 3 of RFC 3629, with a lone surrogate encoded as U+FFFD |
| `Paging.ReachIsPage` | packages/shared/src/paging.ts:71-80 | whole code points that stop before the end of the text are exactly the page under the budget of their bytes, cursor included |
| `Paging.ResumableExactly` | packages/shared/src/paging.ts:57-80 | every cursor that a page hands out, under any budget, is accepted by the next page exactly when no low surrogate stands alone |
| `HistoryReader.ReadHistoryPage` | packages/headroomd/src/history-reader.ts:15-75 | a page is the part of the recursive walk between the frontiers before and after it; its bytes are within the limits given, or else 32768 and 2048, and within 131072 and 8192, its items within the count given, or else 10, and within 50; it makes progress, says `more` exactly when something is unread, ends early only when one of these limits is what its next item or code point would break or the next text cannot be resumed, and throws only where the walk does or where its first text cannot be read |
| `HistoryReader.OpenChild` | packages/headroomd/src/history-reader.ts:34-40 | a child archive is entered exactly as the recursive reader would enter it, by the same ancestor and depth tests |
| `HistoryReader.LeafRest` | packages/headroomd/src/history-reader.ts:37-72 | a leaf is the next thing unread, and behind it is the rest of the advanced stack |
| `HistoryReader.PushedRest` | packages/headroomd/src/engine.ts:885-892 | a child that may be opened is read before the rest of its parent |
| `HistoryReader.ForbiddenRest` | packages/headroomd/src/engine.ts:878 | a child that may not be opened is where the recursive walk throws |
| `HistoryReader.StartIsHistory` | packages/headroomd/src/engine.ts:868-894 | the saved start of a read stands for the whole recursive walk |
| `HistoryLineage.FailsExactly` | packages/headroomd/src/engine.ts:868-894 | the recursive walk throws exactly when some chain of child archives leads back into an open one or to the 129th |
| `HistoryLineage.YieldsExactly` | packages/headroomd/src/engine.ts:868-894 | the texts and gaps of a walk that does not throw are exactly the rows without a child archive on the chains from its root |
| `HistoryRuns.PagesJoinToHistory` | packages/headroomd/src/history-reader.ts:15-75 | joining the pages of any complete read gives exactly the texts and gaps of the recursive reader, which then did not throw |
| `HistoryRuns.FailedHistoryNeverCompletes` | packages/headroomd/src/engine.ts:878 | an archive on which the recursive reader throws is never read to an end |
| `HistoryRuns.PagesNeverRefused` | packages/headroomd/src/history-reader.ts:51-62 | with well-formed texts and at least four bytes a page is never refused |
| `HistoryRuns.PagesStayResumable` | packages/headroomd/src/history-reader.ts:66-73 | every saved frontier can be resumed |
| `HistoryReads.PagesAreBounded` | packages/headroomd/src/history-reader.ts:15-75 | no run of unfinished pages, under whatever limits, is longer than the units and leaves of the archive |
| `HistoryReads.ReadAll` | packages/headroomd/src/engine.ts:660-687 | reading on from each saved frontier, with well-formed texts and at least four bytes, ends: in "Invalid archive lineage" exactly when the recursive reader throws, and otherwise with one item per readable leaf, its hash, role, turn and whole text, in order, and the hashes of the others |
| `NodeRetrieval.ReadNodeChildren` | packages/headroomd/src/node-retrieval.ts:13-37 | a page is the part of the unpaged walk between two frontiers; it stops early only before an entry the test refused, and throws only where the walk throws |
| `NodeRetrieval.StartIsVisit` | packages/headroomd/src/node-retrieval.ts:53 | the saved start stands for the unpaged walk from the root |
| `NodeRetrieval.PagesJoinToWalk` | packages/headroomd/src/node-retrieval.ts:13-37 | joining the pages of any complete read, under any acceptance tests, gives the entries of one unpaged walk |
| `NodeRetrieval.PagesProgress` | packages/headroomd/src/node-retrieval.ts:13-37 | with tests that admit one entry alone every unfinished page holds an entry |
| `NodeReads.EntriesAreEnds` | packages/headroomd/src/node-retrieval.ts:22-29 | the entries of a walk without a fault are exactly the descendants that are childless or at the depth limit |
| `NodeReads.FaultsExactly` | packages/headroomd/src/node-retrieval.ts:21-32 | the walk throws exactly when some path within the depth leads to a missing child or back into itself |
| `NodeReads.RunBound` | packages/headroomd/src/node-retrieval.ts:13-37 | a run of unfinished pages is no longer than the entries of the walk |
| `NodeReads.ReadAll` | packages/headroomd/src/node-retrieval.ts:50-58 | reading on from each saved frontier ends with the fault of the unpaged walk, and otherwise with all its entries |
| `EnhancementProof.StepValid` | packages/headroomd/src/enhancement.ts:57-234 | every entry point, timer and provider reply keeps the manager's invariant |
| `EnhancementProof.ExecutionValid` | packages/headroomd/src/enhancement.ts:57-234 | in every reachable state pending jobs are exactly the queued and running ones, at most two run and sixteen wait, no session has two active jobs, and cached ids name completed jobs |
| `EnhancementSpend.StepCharges` | packages/headroomd/src/enhancement.ts:57-234 | a step moves a session's settled spend by exactly what it charges |
| `EnhancementSpend.SpendIsAccounted` | packages/headroomd/src/enhancement.ts:57-234 | in every reachable state a session's spend is the sum of its charges plus one full reservation exactly while it has an active job |
| `EnhancementSpend.SpendIsNeverNegative` | packages/headroomd/src/enhancement.ts:139-140 | spend never goes negative, with or without its reservation |
| `EnhancementSpend.SpendStaysWithinLimit` | packages/headroomd/src/enhancement.ts:85-88 | while providers stay within their ceilings no session exceeds its limit |
| `EnhancementSpend.RestoreCountsExactly` | packages/headroomd/src/enhancement.ts:115-126 | right after a restore its usage is settled exactly when no job is active or the settled spend covered it already |
| `EnhancementSpend.RestoreCountsOverRuns` | packages/headroomd/src/enhancement.ts:115-126 | at every later time of a run the settled spend covers a restored usage exactly when no job was active at the restore, or what was settled before and charged later covers it anyway |
| `EnhancementSpend.RestoreAbsorbed` | packages/headroomd/src/enhancement.ts:121-124 | a restore during an active reservation can be erased by the charge that follows |
| `EnhancementSpend.RestoreIsForgotten` | packages/headroomd/src/enhancement.ts:115-126 | a run from the start in which a restore of 800 tokens and a use of ten leave a spend of ten |
| `EnhancementSpend.OnlySoundDeliveriesPublish` | packages/headroomd/src/enhancement.ts:189-208 | a job is completed only by its own sound, in-budget, unaborted delivery before disposal |
| `EnhancementJobs.KnownIsSameWork` | packages/headroomd/src/enhancement.ts:72-79 | along every run a job that `submit` answers with was itself submitted with the same cache key, and is published, or is the session's active job |
| `EnhancementJobs.KeysAreSubmitted` | packages/headroomd/src/enhancement.ts:89-97 | in every reachable state pending work and cached results carry the key under which their job was submitted |
| `EnhancementManaging.EnhancementManager.SubmitInput` | packages/headroomd/src/enhancement.ts:57-100 | the answer is, in this order: refused as disposed, disabled, malformed, unpreparable or over the input budget; a finished job of the same key; the session's active job when it has the key, else busy; refused at 16 queued jobs, 128 sessions or an unaffordable request; else a new job at the end of the queue, with one full request reserved |
| `EnhancementManaging.EnhancementManager.GetJob` | packages/headroomd/src/enhancement.ts:101-110 | a job of another source is cancelled, rejected as stale, carries no result and is in no cached entry any more; nothing changes otherwise |
| `EnhancementManaging.EnhancementManager.CancelJob` | packages/headroomd/src/enhancement.ts:129-144 | a queued job leaves the queue, gives one full request back and lets the queue move on; a running one has its signal fired and keeps permit and reservation; a completed or unknown one stays as it is |
| `EnhancementManaging.EnhancementManager.PumpQueue` | packages/headroomd/src/enhancement.ts:163-170 | the first jobs of the queue start, as many as two permits allow, and nothing else changes |
| `EnhancementManaging.EnhancementManager.TrimJobs` | packages/headroomd/src/enhancement.ts:153-162 | terminal jobs are dropped, oldest first, while there are more than 512, and of the entries of the others the last 128 stay cached |
| `EnhancementManaging.EnhancementManager.SettleRace` | packages/headroomd/src/enhancement.ts:189-211 | a job called off before stays as it is; otherwise it is rejected over its ceilings or for bad entries, completed and cached on a sound delivery, failed by timeout or provider error on anything else; the reported usage is noted |
| `EnhancementManaging.EnhancementManager.FinishRun` | packages/headroomd/src/enhancement.ts:212-232 | the late usage, or else the one noted, takes the place of the reservation, an unknown count keeps it, the permit returns once and the queue moves on |
| `EnhancementManaging.EnhancementManager.RestoreUsage` | packages/headroomd/src/enhancement.ts:115-126 | a restore is refused exactly when disposed, negative or beyond 128 sessions; accepted, it raises each count to at least the given one and leaves the active job alone |
| `EnhancementManaging.EnhancementManager.DisposeAll` | packages/headroomd/src/enhancement.ts:148-152 | every pending job but a completed one is cancelled, queued ones are gone, running ones have their signal fired, all others stay, and the cache is empty |
| `RtkProof.StepValid` | packages/rtk/src/client.ts:438-806 | every request, timer, frame, exit and restart keeps the client's invariant and forgets no request |
| `RtkProof.ExecutionValid` | packages/rtk/src/client.ts:438-522 | in every reachable state queued bytes are the sum over at most 32 pending requests within 8 MiB, and before shutdown the request in flight is pending or in the late-reply ring |
| `RtkPipe.OneUnanswered` | packages/rtk/src/client.ts:499-522 | along every run the frames written to the present child and not answered by it are at most one: the one the client holds to be in flight |
| `RtkProof.EachSettlesOnce` | packages/rtk/src/client.ts:462-471 | what was settled keeps its outcome, and nothing that waits is lost |
| `RtkProof.StreakRisesExactly` | packages/rtk/src/client.ts:681-742 | a corrupt frame adds one to the protocol streak, the third in a row starts it again, a late answer leaves it and any other frame clears it |
| `RtkProof.LateReplyIsDropped` | packages/rtk/src/client.ts:713-722 | the late answer of a timed-out request settles nothing and leaves the streak alone |
| `RtkProof.FrameSettlesItsOwn` | packages/rtk/src/client.ts:702-733 | a frame settles no other request than the one it names |
| `RtkOutcomes.DecidedExactly` | packages/rtk/src/client.ts:438-791 | a request gets an outcome in a step exactly when that step's event decides it so: resolved by a valid reply while it waits, protocol failure by an invalid one, server refusal by a refusal, timeout by its timer or when the drain reaches it too late, crash by the exit of its child or a failed write, unready when the drain reaches it without its child or it is refused, overloaded and shut down in their cases |
| `RtkOutcomes.OutcomesExactly` | packages/rtk/src/client.ts:438-791 | in every reachable state a request has an outcome exactly when an event of the run decided it so, and waits exactly when it was taken and nothing has decided it |
| `RtkOutcomes.ResolvedExactly` | packages/rtk/src/client.ts:702-733 | in every reachable state a request is resolved exactly when a valid reply that names it came while it waited |
| `RtkOutcomes.WaitsExactly` | packages/rtk/src/client.ts:438-497 | who waits after a step: those who waited before or were taken now, and are not settled |
| `RtkOutcomes.BreakerExactly` | packages/rtk/src/client.ts:793-806 | in every reachable state the breaker is open exactly when more than the allowed number of children or attempts were lost since the last greeting |
| `RtkProof.SlownessIsNotCorruption` | packages/rtk/src/client.ts:713-722 | no run of timeouts, late replies, exits and restarts raises the streak while the child answers what is in flight |
| `RtkClients.RtkClient.SendRequest` | packages/rtk/src/client.ts:438-497 | a request is refused, queued or written as specified, its bytes are counted, and it and those before it in the queue get exactly the outcomes that the event decides |
| `RtkClients.RtkClient.DrainQueue` | packages/rtk/src/client.ts:499-522 | the drain loop skips settled, expired and orphaned jobs and writes at most one frame |
| `RtkClients.RtkClient.SettleRequest` | packages/rtk/src/client.ts:462-471 | settling removes the request from the map, the counter and the queue, records its outcome once, and changes no earlier outcome |
| `RtkClients.RtkClient.OnTimeout` | packages/rtk/src/client.ts:472-487 | the request is settled as timed out; in flight it keeps the line occupied and is remembered as late |
| `RtkClients.RtkClient.OnFrame` | packages/rtk/src/client.ts:681-734 | for a request that waits a valid reply is its success, an invalid one a protocol failure, a refusal a server refusal; no other outcome changes; the frame frees the line or counts as a strike |
| `RtkClients.RtkClient.RememberLateReply` | packages/rtk/src/client.ts:745-751 | the id is in the ring, each id once and at most 64 of them; only a full ring loses an id, and only its oldest |
| `RtkProof.NewerKept` | packages/rtk/src/client.ts:745-751 | only a full ring forgets, and only its oldest id |
| `RtkClients.RtkClient.OnChildExit` | packages/rtk/src/client.ts:768-791 | an exit of the current child fails everything pending as crashed, unless the spawner or the shutdown owns the clean-up, and schedules one restart |
| `RtkClients.RtkClient.Close` | packages/rtk/src/client.ts:397-412 | shutdown settles everything pending as shut down |
| `Budget.FindBlocks` | packages/rtk-core/src/budget.ts:25-50 | the blocks are exactly the maximal runs of like lines whose fold gains |
| `Budget.SortedIsRanking` | packages/rtk-core/src/budget.ts:51 | sorting ranks the blocks by priority and then by position |
| `Budget.RunningLength` | packages/rtk-core/src/budget.ts:54-64 | the loop's counters plus the footer are the exact length of the text after folding so many blocks |
| `Budget.Select` | packages/rtk-core/src/budget.ts:54-64 | the folded set is the shortest prefix of the ranking that fits, or all of it |
| `Budget.Assemble` | packages/rtk-core/src/budget.ts:65-77 | the output loop emits each folded block once and keeps every other line |
| `Budget.ApplyBudget` | packages/rtk-core/src/budget.ts:24-85 | the blocks are all maximal runs of like lines whose summary is shorter, lowest priority and earliest first; the shortest prefix of them that brings the text within budget is folded, or all; the text is the summary of each folded block and every other line in order, with a footer that names hash and elided tokens; kept lines are exactly those outside folded blocks, anchored lines survive and every character is kept or counted as elided |
| `Budget.DigitsRead` | packages/rtk-core/src/budget.ts:46-53 | counts are printed in decimal, without a leading zero |
| `Budget.AnchorsSurvive` | packages/rtk-core/src/budget.ts:65-77 | folding keeps every anchored line in its order |
| `Budget.CharsConserved` | packages/rtk-core/src/budget.ts:65-77 | kept and folded lines together are all the characters there were |
| `Budget.EmptyInputIsOneLonger` | packages/rtk-core/src/budget.ts:58-80 | without any line the running length is one short of the text |
| `Pipeline.OmittedRanges` | packages/rtk-core/src/pipeline.ts:135-147 | the ranges are ascending, separated, and cover exactly the source lines no kept line came from |
| `Pipeline.RangesUnique` | packages/rtk-core/src/pipeline.ts:141-147 | there is only one such list of ranges |
| `Ownership.ExecutionValid` | packages/rtk/src/engine.ts:108-122 | with a crash possible between any two steps every object written through a publication is counted, and every granted reference has its object on disk |
| `Ownership.ReservationsFit` | packages/rtk/src/ownership.ts:58-69 | an accepted reservation never takes the ledger over its limit, a refused one changes nothing |
| `Ownership.LedgerStaysWithinLimit` | packages/rtk/src/ownership.ts:58-69 | without backfills the ledger stays within the largest limit reserved under |
| `Ownership.ReconcileIs` | packages/rtk/src/ownership.ts:42-57 | reconciliation keeps hash and size of every row that is published or has its object, leaves nothing pending, drops the others, and lowers usage by exactly their sizes |
| `Ownership.WrittenSizeStays` | packages/rtk/src/engine.ts:108-122 | with a crash possible between any two steps, once an object was written through a publication the ledger counts it for good with the size of a reservation before the write |
| `Ownership.AbandonedRowsAreFreed` | packages/rtk/src/ownership.ts:77-83 | the reservation of a crashed publisher that never wrote is gone after the next reconciliation |
| `Ownership.OwnershipStore.ReconcilePending` | packages/rtk/src/ownership.ts:42-57 | the loop over pending rows publishes those whose object exists, with hash and size as they are, deletes the others and leaves published ones |
| `Ownership.OwnershipStore.TryReserve` | packages/rtk/src/ownership.ts:58-69 | a known hash is accepted exactly with its own size, a new one exactly within the limit; what is accepted has a row of that size, and usage grows by it within the limit or not at all |
| `Ownership.OwnershipStore.Publish` | packages/rtk/src/engine.ts:108-122 | on the ledger the first reconciliation leaves, a known object is granted at its own size only and a new one within the limit, when it was written; granted, its row is published with the reserved size and the session owns it; the final ledger is that one with at most this row added, and its usage that one's with the reserved size |
| `PublicationProof.StepValid` | packages/plugin/src/runtime.ts:134-374 | every hook, job end and permit keeps the runtime's invariant |
| `PublicationProof.ExecutionValid` | packages/plugin/src/runtime.ts:134-156 | in every interleaving at most one planning job lives per session state, at most two jobs run, 32 are queued or running, and queued bytes are the sum over the queue |
| `PublicationProof.GenerationMoves` | packages/plugin/src/runtime.ts:179-187 | a session's generation never falls and rises with every view clear, new epoch, model change, edit of a source of its view or snapshot, compaction, deletion and disposal |
| `PublicationProof.NoStaleInstall` | packages/plugin/src/runtime.ts:343-362 | a view is installed only if nothing invalidated its session since its job was requested |
| `PublicationProof.NoStaleInstallOf` | packages/plugin/src/runtime.ts:300-362 | the same for a job that exists at some time in the run: what it captured then decides |
| `MessageEvents.NoEditIsMissed` | packages/plugin/src/runtime.ts:535-605 | when a message event names a source of a planning job that still installs its plan later, the snapshot of that moment did not start with those sources any more, so the plan was for a history already gone |
| `MessageEvents.GonePlanInstalls` | packages/plugin/src/runtime.ts:343-362 | a run in which that happens: the host shows another history of the same epoch, then a source of the plan in flight is edited, and the plan is still installed |
| `MessageEvents.SourcesStayWatched` | packages/plugin/src/runtime.ts:587-603 | a history that starts with the sources of a plan watches all of them, whatever was appended |
| `MessageEvents.EditedViewIsCleared` | packages/plugin/src/runtime.ts:577-586 | an event that names a source of the view clears the view and the snapshot and raises the generation |
| `MessageEvents.SourcesAreSnapshot` | packages/headroomd/src/layered.ts:384-387 | the watched messages are exactly those of the planner's snapshot |
| `MessageEvents.BoundStartsAlike` | packages/headroomd/src/layered-operations.ts:26-34 | a plan whose snapshot binds a history was made from messages that the history still starts with |
| `PublicationProof.ViewsAreInstalled` | packages/plugin/src/runtime.ts:207-214 | there is no other way to a new in-memory view than the end of a job that passes the last test |
| `PublicationViews.ViewsExactly` | packages/plugin/src/runtime.ts:177-369 | a session's view after a step is what the step installs, gone when the step drops it, and otherwise the view before; a plan is installed in mode on into an unpaused session of its generation, a restored view into an empty one of its generation and epoch, an enhanced one over a view of the same history hash |
| `PublicationViews.HooksExactly` | packages/plugin/src/runtime.ts:435-660 | each hook changes generation, view, snapshot, epoch and pause of its own session as told, and no other session |
| `PublicationViews.PollCaptures` | packages/plugin/src/runtime.ts:263-272 | a poll captures the generation and the view of the moment it starts, and waits in no queue |
| `PluginRuntimes.PluginRuntime.PumpQueue` | packages/plugin/src/runtime.ts:134-146 | the first jobs of the queue start, as many as two permits allow, their bytes leave the counter, and nothing else changes |
| `PluginRuntimes.PluginRuntime.EnqueueJob` | packages/plugin/src/runtime.ts:147-156 | a job joins the end of the queue exactly when not disposed, below 32 jobs and within 8 MiB; a refused one changes nothing |
| `PluginRuntimes.PluginRuntime.ClearSessionView` | packages/plugin/src/runtime.ts:179-187 | the view is dropped, the generation rises by one, and in mode on a job is queued that clears the durable copy |
| `PluginRuntimes.PluginRuntime.ObserveSnapshot` | packages/plugin/src/runtime.ts:435-441 | a transform's messages and epoch are noted, and an epoch other than the one before clears the view |
| `PluginRuntimes.PluginRuntime.OnMessageEvent` | packages/plugin/src/runtime.ts:577-604 | an event clears view and snapshot when it may concern a listed source of the view, drops the snapshot and raises the generation when it may concern a watched message, under the layered strategy none of the streaming tail, and does nothing otherwise |
| `PluginRuntimes.PluginRuntime.ScheduleSession` | packages/plugin/src/runtime.ts:294-300 | unless the mode is off or the session is blocked one planning job is queued with the generation and snapshot of that moment; a refused one leaves the session free |
| `PluginRuntimes.PluginRuntime.HydrateSession` | packages/plugin/src/runtime.ts:188-223 | unless the mode is off one restore is queued per session; a refused one may be tried again |
| `PluginRuntimes.PluginRuntime.EndPlan` | packages/plugin/src/runtime.ts:343-369 | a planned view is installed exactly in mode on, when the session is live, unpaused and of the captured generation; the session is free again either way and no other view moves |
| `PluginRuntimes.PluginRuntime.EndHydrate` | packages/plugin/src/runtime.ts:207-221 | a stored view is installed only into an empty, unchanged session of the same epoch, no other view moves, and planning resumes |
| `PluginRuntimes.PluginRuntime.EndPoll` | packages/plugin/src/runtime.ts:279-286 | a candidate replaces only a view of the history hash it was made from, in a live, unpaused session of the captured generation; no other view moves |
| `PluginRuntimes.PluginRuntime.DisposeRuntime` | packages/plugin/src/runtime.ts:651-661 | disposal empties the queue, forgets its jobs, leaves running ones, and raises the generation of every reachable session and no other |

## Left out

- Planner.BuildLayeredPlan: task state restored from stored nodes, metrics and budget reasons are not part of the plan,
  because the contract does not constrain them; shares of the context window, which the source computes in floating
  point, are natural-number options. The counts of the analyses are a parameter here and come from the cache in
  `CachedPlanning.PlanWithCache`; the counter's own memo of texts is exact and not modelled.
- Hierarchy.BuildHierarchy: stored nodes enter as given roots; choosing them by their markers is not modelled.
- Candidacy.CollectCandidates: clip, skeleton and the choice of memory kinds are arbitrary functions, because they are
  regular-expression heuristics.
- EnhancementManaging.EnhancementManager.SettleRace: the checks of prompt, entries and inflation are one verdict
  (sound, flawed or throwing), because only their outcome reaches the manager's state; a summarizer that throws
  synchronously is a race that fails followed at once by its end.
- RtkClients.RtkClient.OnFrame: recovery liveness, stdout framing and stderr are not modelled; killing the child is an
  exit step that may follow at any time, and handshake completion and breaker close are one step.
- PluginRuntimes.PluginRuntime.EndPlan: model limits, thresholds, fingerprints and the check against the freshest
  snapshot decide the job's result, which is arbitrary here. The durable copy of a view is not modelled, because only
  the in-memory view is checked after the write. A planner process is taken to be present.
- PluginRuntimes.PluginRuntime.OnMessageEvent: events proven to change metadata only are left out, because neither the
  ids nor the digests of the snapshot change; ids of a legacy plan are the list its view carries.
- PluginRuntimes.PluginRuntime.EndPoll: revalidating the candidate against the snapshot is part of the job's result.
- HostAdapter.HostHistory.ApplyHostView: the legacy branch without operations is not modelled, because it replaces one
  oldest prefix and adds only an easier case; a host part is one of text, tool, step and opaque parts, and deep copies
  are values.
- Budget.ApplyBudget: the count of collapsed groups is not modelled, because nothing depends on it.
- Ownership.OwnershipStore.Publish: concurrent publishers are excluded by the exclusive transaction, which is one
  holder at a time; the degraded rewrite of the compression result after a failed publication is not modelled.
- Legacy compaction plans, the legacy planner and the recursive query paging of the engine.
- Zod parsing beyond its refinements; SQLite, gzip, file modes, sockets and process spawning; only the order of
  durable steps is kept.
- Full-text ranking, search focusing, node retrieval's JSON envelopes and its retry loop with a shrinking allowance.
- Secret scanning and redaction, and the reassembly of query pages, which would add only interval merging.
- Wall-clock time: timers and back-off are steps without a duration.
