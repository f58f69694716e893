# Verified models of the stateful cores

This project models, in Dafny 4.11, the parts of the application whose correctness depends on
the order in which things happen, and proves what they promise over every run or every input.
`dafny verify dfyconfig.toml` checks all of it.

| component | modules |
|---|---|
| the persistent store: debounced disk writer, terminal-session merge, repo reordering | `DebouncedWriter`, `WorkspaceSession`, `LeaseMeaning`, `SessionMerge`, `SessionStore`, `DurableBindings`, `RepoOrder` |
| the relay: JSON-RPC dispatcher (sections 4 and 5 of the JSON-RPC 2.0 specification), file streams, base64 (section 4 of RFC 4648) | `RelayDispatcher`, `StreamRegistry`, `StreamHistory`, `FileStream`, `Base64` |
| the updater: missing-manifest fallback, version precedence (section 11 of Semantic Versioning 2.0.0), release selection | `UpdateMessages`, `UpdaterFallback`, `DigitStrings`, `VersionPrecedence`, `ReleaseFeed` |
| accessibility outline and element lookup | `AccessibilityTree` |
| file listing and search output | `ReaddirWalker`, `Lines`, `ChildOutput`, `RgListing`, `GitListing`, `TextSearch` |
| WSL paths | `WslPaths`, `Slashes` |

Asynchronous code is modelled as a state machine over the stretches between two `await`s: an
`Event` is one such stretch, `Enabled` says when the runtime can deliver it, `Run` plays a
sequence of them, and the theorems quantify over all sequences. Beside each machine stands a
class with the fields and methods the application has, whose methods are proved to perform
exactly the machine's steps. What cannot be seen from the code is a parameter: how many bytes a
read delivers and what interferes meanwhile, the clock, manifest probes, file filters, frame
encoding, text normalisation.

## Where a promise has a condition

Some promises hold under a condition only. For each the exact condition is proved, in both
directions, and an input or a run that breaks the promise is given.

- A flush is never undone exactly if no rename carrying an older version is in flight when it is
  called (`FlushIsPermanentIff`); the generation check and the rename are two steps, and
  `FlushSlipsBetweenCheckAndRename` is the run in between.
- Writes in flight bring the disk up to date in every order exactly if every live one carries the
  current version (`SettlesIff`), and a run keeps that up exactly if each of its events meets the
  condition in `Orderly` (`NoMutationIsLost`); `OverlappingWritesLoseAVersion` is a run that does not.
- The i-th frame a client receives has number i exactly if no earlier frame to it failed to encode:
  the number is taken first, and the encoder throws above the message limit
  (`FramesAreNumberedIff`, `OversizedFrameSkipsANumber`).
- A failed fallback is handled exactly once, except when the primary was reported by its rejection
  alone, the fallback by its event alone, and both carry the same error (`CompletedCycle`); then the
  status stays at checking (`LostFailureGoesUnnoticed`).
- A pty binding that was flushed is on disk in every later state exactly if no rename carrying an
  earlier version was in flight at the flush (`FlushedBindingIsDurableIff`); the run above breaks
  this too.
- A request whose client stays is answered exactly if the result, or the error that says why not,
  can be encoded (`FinishAnswersIff`); `UnencodableAnswerIsNoAnswer` is one that is not.
- The version comparison is transitive on a set of texts, and with that a total preorder, exactly
  if they all parse or those that do all compare equal (`TransitiveIff`): a text that does not parse
  compares equal to everything (`UnparsableTextsBreakTransitivity`).
- A git listing pass delivers every line exactly if its timer did not go off within a line
  (`ResolvesWithAllLinesIff`). The comment at the timer promises a rejection, but the verdict is
  the child's close event, and a child that ends by itself after the timer resolves the pass
  (`HalfAPathIsDelivered`).
- A directory listing at exactly the file cap is returned only if its last file is the last thing
  the walk looks at (`ListedIffFits`); `FullListingIsRefused` has one more entry behind it.
- A search's mark of truncation, apart from the timer's, says whether matches are missing exactly
  if there are not as many as the cap, or none with a cap of zero or less (`MarkIsRightIff`);
  `OnlyMatchIsMarked` finds all there is and is marked. The comment at the ingestion forbids callers
  to set the mark, yet both timers do.
- A rendering marked truncated need not lack anything (`MarkedThoughWhole`); when it is marked is
  said by `TruncatedIff`.
- A binding reaches the tab's slot exactly if there is such a tab and the pty id is not empty
  (`BindReachesTabIff`, `EmptyPtyIdIsNoTabBinding`).
- A Linux path survives the trip to Windows and back under the condition of `RoundTripIff`; a bare
  drive does not (`BareDriveGainsASlash`).

## Model

| member | source | states |
|---|---|---|
| DebouncedWriter.FlushIsPermanentIff | src/main/persistence.ts:564-604 | in any reachable state, nothing that can happen after a successful flush takes the disk below its version if and only if no rename in flight carries another version than memory's |
| DebouncedWriter.FlushAfterRunIsPermanentIff | src/main/persistence.ts:564-604 | the same after every run from start-up |
| DebouncedWriter.FlushNeverUndone | src/main/persistence.ts:590-604 | over whole runs with overlapping writes and I/O failures the disk never falls below the last successful flush, if every flush met that condition |
| DebouncedWriter.AtomicCommitsAreCalm | src/main/persistence.ts:590-596 | taking generation check and rename as one step makes every flush of every run meet it |
| DebouncedWriter.AtomicCommitsKeepEveryFlush | src/main/persistence.ts:1704-1718 | the stated intent: then, from start-up, no successful flush is ever undone |
| DebouncedWriter.FlushSlipsBetweenCheckAndRename | src/main/persistence.ts:594-596 | as written, a flush of version 2 between check and rename leaves version 1 on disk |
| DebouncedWriter.SettlesIff | src/main/persistence.ts:564-604 | every completion order of the writes in flight ends with memory on disk if and only if each live write carries the current version and, if the disk is behind, there is one |
| DebouncedWriter.FinishWrite | src/main/persistence.ts:564-604 | any write can be run to its end alone, and replaces the disk's version by the one it carries exactly if it is live |
| DebouncedWriter.FinishOthers | src/main/persistence.ts:564-604 | all other writes can be run to their ends first, leaving the chosen ones and, without live ones, the disk alone |
| DebouncedWriter.KeptIffOrderly | src/main/persistence.ts:539-604 | for every event, I/O failures included, the exact condition under which memory stays on disk or on its way there: the timer may start a write only beside live ones that carry memory, a flush may overtake no stale rename, a write may fail only if it is dispensable |
| DebouncedWriter.NoMutationIsLost | src/main/persistence.ts:539-604 | memory is on disk or on its way there in every state of a run if and only if each event met its condition; the timer is then armed or the writes in flight settle it |
| DebouncedWriter.NoMutationIsLostFromStartUp | src/main/persistence.ts:539-604 | the same for every run from start-up |
| DebouncedWriter.OverlappingWritesLoseAVersion | src/main/persistence.ts:539-596 | without that proviso a run ends quiet with the disk one version behind |
| DebouncedWriter.DebouncedStore.Flush | src/main/persistence.ts:1704-1718 | performs the machine's flush step: cancels the timer, makes older writes stale, writes memory |
| SessionMerge.MergedTabSlot | src/main/persistence.ts:1309-1333 | the merged tab slot holds the incoming pty id, else the previous one if no terminated or expired lease matches it, else none |
| SessionMerge.MergedLeafSlot | src/main/persistence.ts:1334-1366 | the merged leaf slot holds the incoming pty id, else the previous one for a leaf live in the incoming tree whose leases allow it, by the rule for an empty or for a partial incoming map |
| WorkspaceSession.LeafIdsAreLive | src/main/persistence.ts:1371-1384 | a leaf id is collected exactly if some sequence of turns to first or second leads from the root to that leaf; every statement here about live leaves is made with that walk |
| SessionMerge.LastListingWins | src/main/persistence.ts:1334-1343 | of several worktrees that list a tab the last one listed is looked up; if none lists it, none is |
| SessionMerge.IncomingIsKept | src/main/persistence.ts:1309-1366 | apart from pty ids the merge hands on the incoming session as it is, and touches no binding it carries |
| SessionMerge.TabSlotHistory | src/main/persistence.ts:1309-1333 | over any run of snapshots, with repos and leases changing in between, a tab ends up bound to a pty id if and only if some session of the run carried that id at this slot and every later snapshot had the tab, left it unbound and met no dead lease |
| SessionMerge.LeafSlotHistory | src/main/persistence.ts:1334-1366 | the same for leaf slots: every later snapshot had the leaf live and unbound, and the leases of its time allowed the id by the rule for an empty or a partial map |
| SessionMerge.ContextIsTheWorktree | src/main/persistence.ts:1334-1343 | the worktree the merge looks up for a tab's layout is the one that lists the tab, when there is only one |
| SessionMerge.StaleSnapshotKeepsIff | src/main/persistence.ts:1287-1369 | a stale snapshot keeps a binding in its leaf slot and in its tab slot exactly if no dead lease matches it as a leaf's and as a tab's binding |
| SessionMerge.DurableBindingSurvives | src/main/persistence.ts:1483-1522 | a binding made durable for an existing tab is still in both slots after any number of stale snapshots, whatever becomes of repos and leases, if no dead lease matches it when a snapshot arrives |
| SessionMerge.BindReachesTabIff | src/main/persistence.ts:1483-1519 | binding reaches the leaf slot always, the tab slot if and only if there is such a tab and the pty id is not empty |
| SessionMerge.EmptyPtyIdIsNoTabBinding | src/main/persistence.ts:1491-1519 | with an empty pty id the leaf slot is bound and the tab slot is not |
| SessionMerge.BindChangesOnly | src/main/persistence.ts:1483-1522 | binding changes nothing else: every other tab, every slot of another leaf or tab, every other layout and all other fields of the session and of the layout stay; a tab without layout gets one whose only leaf is the bound one, active and not expanded |
| SessionMerge.BindKeepsOtherTabs | src/main/persistence.ts:1483-1497 | so no other tab slot of any worktree changes |
| LeaseMeaning.MatchIffEveryPane | src/main/persistence.ts:1401-1426 | a lease matches a binding exactly if every pane the lease may be about is one the binding may be about: missing lease context matches no known context |
| LeaseMeaning.MayReferenceIffSomePane | src/main/persistence.ts:1445-1470 | a lease may reference a binding exactly if some pane fits both: missing context on either side is a wildcard |
| LeaseMeaning.TabRestorableIff | src/main/persistence.ts:1392-1399 | a tab's binding may be restored exactly if every lease of that pty for that tab, on the worktree's target if it has one, is attached or detached |
| LeaseMeaning.LeafRestorableIff | src/main/persistence.ts:1392-1443 | the same for a leaf's under the rule for an empty map; under the rule for a partial one some such lease must be attached or detached |
| LeaseMeaning.TargetIsTheRepos | src/main/persistence.ts:1472-1475 | a worktree's target is the connection of the first repo whose id is what stands before the first separator |
| LeaseMeaning.RepoIdEndsAtSeparator | src/shared/worktree-id.ts:10-13 | the repo id ends at the first separator, and is all of the worktree id if there is none |
| DurableBindings.FlushedBindingIsDurableIff | src/main/persistence.ts:1475-1522 | whatever stale snapshots, asynchronous writes and I/O failures follow, the session on disk holds a newly flushed binding in both slots in every state if and only if no rename in flight at the flush carries an earlier version |
| DurableBindings.PersistedBindingIsDurable | src/main/persistence.ts:1483-1522 | so it does after binding an existing tab and flushing with no rename in flight |
| SessionMerge.LeasesOfTarget | src/main/persistence.ts:1633-1643 | removal splits the leases by target, losing and doubling none |
| SessionMerge.RemovalScrubsExactly | src/main/persistence.ts:1645-1700 | after removal no binding a lease of the target may reference is left, every other binding and everything else is unchanged |
| SessionMerge.RemovedSlots | src/main/persistence.ts:1645-1700 | the same at the level of tab slots and leaf slots |
| SessionMerge.EmptySlotStaysEmpty | src/main/persistence.ts:1309-1366 | a slot that is empty, and empty in every snapshot, stays empty |
| SessionMerge.ScrubbedBindingsStayGone | src/main/persistence.ts:1633-1700 | no run of snapshots without a binding at a scrubbed slot revives it, whatever leases are left or come back |
| SessionStore.Store.SetWorkspaceSession | src/main/persistence.ts:1287-1369 | the loops over tabs and layouts store exactly the specified merge and change no lease or repo |
| SessionStore.Store.PersistPtyBinding | src/main/persistence.ts:1483-1522 | binds the first tab with the id and the leaf in the session, and nothing else |
| SessionStore.Store.RemoveSshRemotePtyLeases | src/main/persistence.ts:1633-1643 | leaves the leases of other targets in order and the session scrubbed by the target's |
| SessionStore.Store.ReorderRepos | src/main/persistence.ts:704-731 | true exactly for a permutation of the ids, which is then the new order; otherwise the list is untouched |
| RepoOrder.Pigeonhole | src/main/persistence.ts:704-731 | distinct elements drawn from a list of the same length are all of that list |
| RepoOrder.Reordered | src/main/persistence.ts:704-731 | the checks accept exactly the duplicate-free permutations of the current ids, with no assumption that those are unique |
| RepoOrder.ReorderConserves | src/main/persistence.ts:704-731 | an accepted order keeps the same repos, each as often, in the requested order |
| RelayDispatcher.ResponsesNeverCrossClients | src/relay/dispatcher.ts:144-177 | over every run each response goes to the client and generation its request came from, under its id, and no request is answered twice |
| RelayDispatcher.GenerationsHaveOneClient | src/relay/dispatcher.ts:56-69 | over every run a generation belongs to one client |
| RelayDispatcher.FinishAnswersIff | src/relay/dispatcher.ts:144-177 | an ending handler's request gets exactly one response if its generation is current, the dispatcher lives and an answer can be encoded, and none otherwise |
| RelayDispatcher.FinishSays | src/relay/dispatcher.ts:163-176 | what goes on the wire for an ending handler: its result; a result that cannot be encoded, followed by an error of code -32000 that says so; what was thrown, with its own code or -32000 |
| RelayDispatcher.ArrivalSays | src/relay/dispatcher.ts:144-152 | a request without handler is answered at once with code -32601 and the name of its method, one with a handler puts nothing on the wire |
| RelayDispatcher.UndisturbedRequestIsAnsweredOnce | src/relay/dispatcher.ts:144-177 | a request is answered exactly once if its handler ends with no generation change or dispose in between and the result, or the error that says why not, can be encoded |
| RelayDispatcher.UnencodableAnswerIsNoAnswer | src/relay/dispatcher.ts:152-176 | a request whose result and whose error cannot be encoded gets no response, with its client still there |
| RelayDispatcher.FramesAreNumberedIff | src/relay/dispatcher.ts:199-206 | per client the i-th frame received has number i, keepalives included, if and only if no frame was written after one that failed to encode |
| RelayDispatcher.AcksAreTheMaximumReceived | src/relay/dispatcher.ts:115-118 | every frame's ack is the maximum frame id received so far from its client; acks never decrease |
| RelayDispatcher.OversizedFrameSkipsANumber | src/relay/dispatcher.ts:199-206 | after a notification that fails to encode the first frame the client receives has number 2 |
| RelayDispatcher.Dispatcher.Feed | src/relay/dispatcher.ts:79-90 | handles the frames of one read in order, or nothing once disposed |
| RelayDispatcher.Dispatcher.HandlerDone | src/relay/dispatcher.ts:152-176 | performs the end of a handler with its generation check and its error fallback |
| StreamRegistry.HandlesAreConserved | src/relay/fs-stream-registry.ts:16-72 | over any interleaving a handle is closed exactly once if its stream is over or was refused and not while it lives; live streams stay within the cap; ids are never reused |
| StreamRegistry.DisposeClosesEverything | src/relay/fs-stream-registry.ts:62-71 | after disposal no stream is left and every handle opened so far was closed exactly once |
| StreamRegistry.Registry.DisposeAll | src/relay/fs-stream-registry.ts:62-71 | releases every stream in insertion order |
| FileStream.OpenStream | src/relay/fs-handler-file-read.ts:55-113 | a stream starts exactly for a non-empty file within the limit that does not look binary and a registry with room; a refused handle is closed |
| FileStream.PumpChunks | src/relay/fs-handler-file-read.ts:115-203 | stops at the first turn with a verdict, and leaves exactly the frames and the final states of dispatcher and registry that the turns up to there give, whatever happens during each read |
| FileStream.StoppedTells | src/relay/fs-handler-file-read.ts:132-199 | what a client that asked has been told when its pump stopped, whatever happened meanwhile: the chunks, and behind them exactly one error with the code and message of the read that threw (ESTREAMREAD without a code; nothing for EBADF on an aborted stream), one ESTREAMTRUNCATED error for a read of nothing, nothing if the stream was cancelled or its client lost, the error of a chunk that could not be encoded, or else one end, the chunks then reaching the announced size |
| FileStream.BroughtBytes | src/relay/fs-handler-file-read.ts:160-169 | a read brings as many bytes as it says, but no more than a chunk holds, the announced size leaves or the file has |
| FileStream.DecimalReads | src/relay/fs-handler-file-read.ts:164-169 | the sizes in the truncation message read as the numbers they are, without leading zero |
| FileStream.StreamIsSound | src/relay/fs-handler-file-read.ts:132-199 | for every interleaving: in the history that has all that happened during the reads, each before the chunk sent after it, no chunk and no end stands behind a cancel, a disposal or a generation change; the final states are those of the history; the frames are the chunks 0 to n-1, each the bytes of its read, and the last one, chunks and end sent to the client that asked |
| FileStream.EndedStreamIsWhole | src/relay/fs-handler-file-read.ts:176-181 | if a stream ends, its chunks were all written, and decode and join to exactly bytes 0 to totalSize |
| FileStream.EndsWellIff | src/relay/fs-handler-file-read.ts:132-175 | a stream ends well if and only if it was alive when its pump started, no read was disturbed by anything that ends it, and the last read and chunk went well |
| FileStream.OpenedStreamIsStartable | src/relay/fs-handler-file-read.ts:84-102 | from start-up through any run in which pumps send only for issued streams, the request, the registration and whatever happens before the first turn: the stream a handler opens is one that these results are about, for the client of its request |
| StreamHistory.DisturbedFacts | src/relay/fs-handler-file-read.ts:140-159 | an interference adds no frame to a stream, and leaves it alive exactly if it was and is not one that ends it |
| StreamHistory.SteadyMeanwhiles | src/relay/fs-handler-file-read.ts:140-159 | so a stream is alive after any history exactly if it was at the start and nothing in it ended it |
| StreamHistory.ChunksJoin | src/relay/fs-handler-file-read.ts:160-163 | frames that carry adjoining pieces of a file decode and join to the file up to where they reach |
| Base64.DecodeEncode | src/relay/fs-handler-file-read.ts:170-172 | decoding recovers exactly the bytes encoded |
| Base64.GroupOfBits | src/relay/fs-handler-file-read.ts:170-172 | three bytes become the four letters for their 24 bits, and the rest is encoded on its own |
| Base64.LastGroupIsPadded | src/relay/fs-handler-file-read.ts:170-172 | one or two bytes left over are filled up with zero bits, their group with the padding sign |
| UpdaterFallback.AtMostOneOutcome | src/main/updater.ts:231-311 | in every order of delivery of event and rejection there is at most one retry, one handled failure and one outcome shown |
| UpdaterFallback.CompletedCycle | src/main/updater.ts:354-418 | once all was delivered: one failure handled if the fallback failed, except for the one lost pattern, none if it succeeded; two attempts; the status is the one due to whoever asked, shown once; context cleared exactly if both were reported in full; the next check is due soon, except that a failure a user was shown, and the lost pattern, leave it as scheduled |
| UpdaterFallback.RetryChecksTheNextTag | src/main/updater.ts:469-514 | the fallback falls back: in every state of a cycle launched with the tags found, the feed is the newest tag after one check and the next one after two |
| UpdaterFallback.RetryIsForTheInitiator | src/main/updater.ts:486-500 | whichever report starts the retry, it runs for whoever asked for the check |
| UpdateMessages.IsMissingManifestIff | src/main/updater-fallback.ts:56-68 | a failure is a missing manifest exactly if its text has 404 and one of four marks, whatever their case |
| UpdateMessages.IsBenignIff | src/main/updater-fallback.ts:46-85 | a failure is benign exactly if its text has one of six marks, whatever their case |
| UpdaterFallback.LostFailureGoesUnnoticed | src/main/updater.ts:380-405 | every cycle of the lost pattern has a complete run after which no failure was handled, no outcome shown, and the status is still checking |
| UpdaterFallback.Updater.ErrorEvent | src/main/updater-events.ts:234-252 | performs the error event's step: suppressed, or handled under the fallback's own initiator |
| UpdaterFallback.Updater.CheckFailed | src/main/updater.ts:231-311 | performs the failure step: one of the keys suppresses it, the retry starts, or it is handled |
| VersionPrecedence.CompareVersions | src/main/updater-fallback.ts:140-184 | the loops compute the specified comparison of parsed versions, and 0 if a text does not parse |
| VersionPrecedence.ComparisonIsPrecedence | src/main/updater-fallback.ts:123-184 | the sign is the precedence of section 11 of Semantic Versioning 2.0.0, and 0 exactly for equal cores and prerelease lists whose identifiers agree pairwise, digit by digit or in the collation |
| DigitStrings.NumberOrder | src/main/updater-fallback.ts:123-138 | identifiers of digits compare as numbers do: without their leading zeros the shorter is lower, of two as long the one with the lower digit where they first differ, and they are equal exactly if no digit differs |
| VersionPrecedence.ComparisonIsTotalPreorder | src/main/updater-fallback.ts:140-184 | reflexive, sign-antisymmetric and transitive |
| VersionPrecedence.TransitiveIff | src/main/updater-fallback.ts:140-147 | on any set of texts the comparison is transitive if and only if they all parse or those that do all compare equal |
| VersionPrecedence.UnparsableTextsBreakTransitivity | src/main/updater-fallback.ts:140-147 | 2.0.0 is not above an unparsable text, nor that above 1.0.0 |
| ReleaseFeed.FetchReleaseFeedTags | src/main/updater-prerelease-feed.ts:41-68 | yields the valid tags, each as often, in descending order |
| ReleaseFeed.SortDescending | src/main/updater-prerelease-feed.ts:61 | the list is descending and a permutation of the input |
| ReleaseFeed.NewestNewerIsFirst | src/main/updater-prerelease-feed.ts:127-133 | on a descending list the search for the newest newer tag answers only -1 or 0 |
| ReleaseFeed.FetchRefinesSelection | src/main/updater-prerelease-feed.ts:110-157 | the pipeline equals: of the first six candidates those with a manifest, the first maxTags of them if the head is newer, else none |
| ReleaseFeed.FetchedByPosition | src/main/updater-prerelease-feed.ts:110-157 | the answer told by positions in the feed: of the first six tags that may be offered, all or those without prerelease, the ones with a manifest, in order and up to maxTags of them, if the first of these is newer, else none |
| ReleaseFeed.ValidTagsByPosition | src/main/updater-prerelease-feed.ts:41-60 | the tags of a feed are its entries that parse, all of them, in their order |
| AccessibilityTree.RenderIsCappedListing | native/computer-use-linux/runtime.py:358-399 | records and lines are exactly the first MAX_NODES entries of the listing without node cap, in parallel, each record numbered by its position |
| AccessibilityTree.WalkExtends | native/computer-use-linux/runtime.py:363-396 | the walk of a subtree extends what was rendered by exactly its listing, as far as there is room |
| AccessibilityTree.ListedIff | native/computer-use-linux/runtime.py:358-396 | an element is listed exactly if no element on the way to it hides its children, it is no wrapper to elide, and its depth, in which elided wrappers do not count, is within the cap; with that depth and path |
| AccessibilityTree.ElidedIff | native/computer-use-linux/runtime.py:363-378 | an element is passed over exactly if it is one of four wrappers, has no text, value, action or summary, and no two of its children could be fetched |
| AccessibilityTree.HidesChildrenIff | native/computer-use-linux/runtime.py:243-256 | an element is shown without its children exactly if it has a summary, or is a control that a name, an id or a value labels |
| AccessibilityTree.TruncatedIff | native/computer-use-linux/runtime.py:363-369 | a rendering is marked truncated if and only if the walk without node cap comes by an element beyond the depth cap, or by any element once MAX_NODES were shown |
| AccessibilityTree.UntruncatedRenderIsWhole | native/computer-use-linux/runtime.py:363-369 | a rendering not marked truncated is the listing without any cap |
| AccessibilityTree.MarkedThoughWhole | native/computer-use-linux/runtime.py:363-378 | a tree that is rendered whole and marked truncated, for an empty wrapper visited at the node cap |
| AccessibilityTree.UntruncatedWalkIsComplete | native/computer-use-linux/runtime.py:363-396 | the same for the walk of any subtree from any state |
| AccessibilityTree.RecordsResolve | native/computer-use-linux/runtime.py:532-572 | every record's runtimeId finds, on an unchanged tree, exactly the element that produced the record, and no two records share one |
| AccessibilityTree.RecordsTell | native/computer-use-linux/runtime.py:370-385 | a record holds its number, its path, and the element's own role, name, id, value and actions |
| AccessibilityTree.ResolvedIff | native/computer-use-linux/runtime.py:532-572 | on a tree that may have changed a saved element is found exactly if the node at its path has the saved role, name, id and actions; its value may differ |
| AccessibilityTree.ListingIsAddressed | native/computer-use-linux/runtime.py:363-396 | every path of the listing leads to its own node, through elided and unreachable children |
| AccessibilityTree.ListingIsDistinct | native/computer-use-linux/runtime.py:363-396 | no two paths of the listing are equal |
| AccessibilityTree.FindElement | native/computer-use-linux/runtime.py:555-572 | answers the node at the saved path exactly if its signature is the saved one |
| AccessibilityTree.Renderer.Visit | native/computer-use-linux/runtime.py:363-396 | the recursive walk on the shared lists and flags performs the specified walk |
| ReaddirWalker.ListFiles | src/relay/fs-handler-readdir-fallback.ts:33-93 | for any tree and clock: a list is returned exactly if no check of the whole walk finds a limit exceeded, and is then the complete listing; with a clock that never goes back the error names the limit met first |
| ReaddirWalker.PassesIff | src/relay/fs-handler-readdir-fallback.ts:41-64 | a walk finds no limit exceeded exactly if each of its checks comes with fewer files than the cap found before it, and in time |
| ReaddirWalker.TraceLists | src/relay/fs-handler-readdir-fallback.ts:60-81 | an unlimited walk finds exactly the included files, depth first, unreadable directories counting as empty |
| ReaddirWalker.ListingIff | src/relay/fs-handler-readdir-fallback.ts:21-81 | a path is in the complete listing exactly if some way of entries leads to a file whose names join to it with slashes, nothing on the way excluded, no directory on it blocked or node_modules |
| ReaddirWalker.ListedIffFits | src/relay/fs-handler-readdir-fallback.ts:41-64 | in time, a list is returned exactly if it is shorter than the cap, or as long and its last file is the last thing looked at |
| ReaddirWalker.FullListingIsRefused | src/relay/fs-handler-readdir-fallback.ts:60-64 | a directory of exactly MAX_FILES files and one entry that is neither file nor directory is refused in whatever time |
| ReaddirWalker.Walker.Walk | src/relay/fs-handler-readdir-fallback.ts:41-82 | the recursive walk on the shared list and flag follows the trace, complete or up to its first failing check |
| Lines.JoinSplit | src/relay/fs-handler-utils.ts:136-143 | splitting loses nothing: the pieces are unbroken and join to the text |
| Lines.SplitJoin | src/relay/fs-handler-utils.ts:136-143 | unbroken pieces are what splitting their join gives |
| Lines.SplitAppend | src/relay/fs-handler-git-fallback.ts:66-76 | a text can be split where its unfinished line begins |
| Lines.CutLines | src/relay/fs-handler-list-files.ts:93-105 | the cursor loop delivers the complete lines and keeps the unfinished one, as splitting whole and popping does |
| Lines.DroppedTailShowsIff | src/relay/fs-handler-git-fallback.ts:108-111 | dropping an unfinished line changes the lines delivered if and only if it was not empty |
| RgListing.ResolvesIff | src/relay/fs-handler-list-files.ts:63-151 | a pass resolves exactly on a close without signal, before timeout or error, with code 0, 1, or 2 and a parsed path, having delivered the lines of its whole output |
| RgListing.ResolvedFilesIff | src/relay/fs-handler-list-files.ts:46-151 | the files of a resolved pass are exactly the paths that some line of its output names and that are included and not excluded |
| RgListing.ChunkingIsInvisible | src/relay/fs-handler-list-files.ts:93-105 | two ways of cutting the same output into chunks give the same files and verdict |
| RgListing.Pass.OnData | src/relay/fs-handler-list-files.ts:93-105 | delivers the lines a chunk completes and keeps the rest |
| GitListing.ResolvesIff | src/relay/fs-handler-git-fallback.ts:65-112 | a pass resolves exactly on a close without signal and without earlier error, timer or not, and what it has delivered then |
| GitListing.ResolvesWithAllLinesIff | src/relay/fs-handler-git-fallback.ts:89-111 | a resolved pass delivered the lines of its whole output if and only if the timer did not go off within a line |
| GitListing.KeptIff | src/relay/fs-handler-git-fallback.ts:46-59 | the files of a pass are exactly the paths that some delivered line names, a carriage return behind them or not, and that are included and not excluded |
| GitListing.HalfAPathIsDelivered | src/relay/fs-handler-git-fallback.ts:108-111 | a run that resolves with the second half of a path |
| TextSearch.AnswersWithFirstMatches | src/relay/fs-handler-git-fallback.ts:144-179 | a search whose child closes is answered with the first matches, up to the cap, of all lines of its output, however that was cut, one that errs with those of the complete lines; it is marked truncated exactly if the timer went off or those lines have as many matches as the cap, which must be positive |
| TextSearch.AddAllTakesFirst | src/shared/text-search.ts:214-231 | adding the matches of a line one by one keeps the first up to the cap, and marks the results exactly if the cap is reached |
| TextSearch.MarkIsRightIff | src/shared/text-search.ts:174-176 | the cap marks the results exactly when matches are missing, except that it also does with exactly as many as the cap, and never does with a cap of zero or less |
| TextSearch.OnlyMatchIsMarked | src/shared/text-search.ts:226-230 | a search for one match that finds the only one there is, is marked truncated |
| TextSearch.AnsweredOnce | src/relay/fs-handler-utils.ts:119-126 | the first answer stands |
| WslPaths.RoundTripIff | src/main/wsl.ts:17-84 | on Windows a path survives the round trip if and only if it is absolute, on one line, without backslash, not a bare drive, and on a drive or met by a proper distribution name |
| WslPaths.RoundTripElsewhereIff | src/main/wsl.ts:17-84 | elsewhere exactly the paths on a drive without backslash do |
| WslPaths.NetworkPathsAreRead | src/main/wsl.ts:17-35 | a network path in the current or the legacy form, with slashes of either kind, names its distribution and the path in it |
| WslPaths.DriveIsMounted | src/main/wsl.ts:37-62 | a drive path becomes the path below the mount of its drive in lower case |
| WslPaths.MountIsDrive | src/main/wsl.ts:64-84 | a path below a mount becomes the path on that drive in upper case |
| WslPaths.MountedRoundTrip | src/main/wsl.ts:56-81 | what every mounted path comes back as |
| WslPaths.BareDriveGainsASlash | src/main/wsl.ts:50-84 | a bare mounted drive comes back with a slash behind it |
| WslPaths.ReprintIsStable | src/main/wsl.ts:17-84 | printing what was parsed and parsing it again gives the same distribution and path, except that a mounted drive names no distribution |

## Left out

- Encryption, file-system calls and the retry of a failed write: disk is one cell that holds a version; an I/O failure is an event.
- The promise that lets tests wait for a pending write: nothing in the writer depends on it.
- Browser-history and scrollback pruning before the merge: taken to leave bindings and layout trees alone.
- Absent top-level records of a session are treated like empty ones.
- Fields of tabs, layouts, leases and repos that no branch of the modelled code reads are one opaque field.
- `Store.load` migrations, settings and the other setters of the store.
- Frame bytes, the frame decoder and JSON texts: the dispatcher starts from decoded messages, and whether a body can be encoded under a number is an arbitrary predicate.
- Write callbacks that throw, and the notification handlers' own effects.
- The keepalive timer's period: a keepalive is an event that may come at any time.
- FileStream.StreamIsSound: `streamError` is not rechecked for staleness after the read, so silence after a cancel or a generation change, and the client a frame goes to, are claimed for chunks and ends only.
- FileStream.PumpChunks: the file is fixed while it is streamed; a read delivers a prefix of what was asked for, or fails.
- `FsHandler.watch`: unsubscribing a replaced watch is not part of this file.
- Lower case of letters outside ASCII: no such letter becomes one that completes a mark the updater looks for.
- Nudge campaigns, macOS quit deferral, download progress and the URL and version fields of a status.
- UpdaterFallback.CompletedCycle: one check at a time; a check launched while another is running is not modelled.
- Version text parsing and the precision of JavaScript numbers: versions are lists of exact integers and identifiers; the alphanumeric order is an arbitrary total preorder.
- ReleaseFeed.SortDescending: an insertion sort stands in for the runtime's sort; both are stable.
- Network fetches: a manifest probe is an arbitrary boolean per tag.
- How the outline's lines are worded, texts normalised and subtrees summed up: functions of the node given as parameters; frames, class names and handles of a record are not kept.
- AccessibilityTree.RecordsResolve: the tree does not change between rendering and lookup; nodes are told apart by their paths.
- ReaddirWalker.Walker.Walk: the loop over entries and its body are methods of their own, in the same order of tests.
- RgListing.Pass.OnData: the lines of a chunk are cut before the first of them is processed; processing does not touch the buffer.
- The git pass cuts its lines in the same way.
- The two passes of a file listing share one set of files; each is modelled with its own, and the order of the union and the killing of the surviving child are not.
- The matches a line yields are a parameter; their grouping by file, the clamping of long lines and the kill a search asks for at its cap are not modelled. The lists in an answer are taken as they are when it is given.
- `getWslHome` and `isWslAvailable`: caches around child processes.
