# Verified model of octop_harness

A Dafny model of the parts of octop_harness in which state, order and naming are
easiest to get wrong, with proofs of what those parts promise:

- **Object store as a file tree** (`StorageKeys`, `ObjectStore`, `CosStorage`,
  `TreeOperations`, `MoveTheorems`, `FileMoves`, `MoveIntoItself`, `MkdirTheorems`,
  `DirectoryListing`, `ListingEntries`). The S3 and COS backends keep a flat map from
  keys to bodies and show it as a tree. Tree moves and deletes run while the key
  listing is still being paged, and a page is "the next keys greater than the
  marker that have this prefix".
- **Concurrent protocols as step machines** (`McpClient`, `McpOutcomes`,
  `AgentLifecycle`, `AgentReleases`, `AcpConversation`, `AcpAnswers`). Code between two
  awaits, or under one lock, is one atomic step. Each class carries the steps out on its
  fields and is tied to the function `Next`; the theorems are about every run of `Next`,
  and say of each outcome which step of the run it goes back to.
- **Path algebra** (`PathParts`, `PosixPaths`, `DockerPaths`, `ParentSteps`,
  `WorkspaceKeys`, `WorkspaceFiles`, `WorkspacePlaces`, `WorkspaceReadBack`). Relative
  paths become storage keys, container paths and back.
- **Algorithms** (`ModelCache`, `ModelLookup`, `ContextUsage`, `BuiltinSkills`,
  `SkillTrees`, `Selection`, `ToolOrdering`, `ReasoningPayload`), with `Sorting` and
  `Strings` for the sort and the string operations of the source language.

Bodies, messages and configurations are opaque values. `dafny verify dfyconfig.toml`
covers the whole project.

## Where the code and its description part

The model follows the code. In these places the code does less than its
documentation, or than its design, suggests; each has a lemma that shows a case
and, where there is a condition, a lemma that gives it exactly.

- `_virtual_path` is called the inverse of `_key`; it is one exactly for paths with
  one leading slash and for well-formed keys (`PathRoundTrip`, `KeyRoundTrip`).
- A directory move sends the directory's own marker to a key without a slash, a
  file. Moving back therefore restores the store exactly when there was no marker
  (`MoveBackRestores`). With a trailing slash on the destination the marker can
  overwrite a file the guards did not look at (`MoveConserves`, `TrailingSlashLosesFile`).
- A moved file is back after the way back exactly when nothing is stored under its name
  as a directory; otherwise the way back is refused (`FileComesBack`).
- The guard against moving a tree into itself compares the paths as they are written.
  Moved keys land in the source listing again exactly when the destination, with its
  leading slashes reduced to one, lies at or under the source (`TargetReenters`); with
  one leading slash that never happens (`RootedNeverReenters`), with two, before a
  place at or under the source, it does on every store on which that place is free
  (`DoubledSlashReenters`), and the move then need not end (`MoveNeedNotEnd`).
- Deleting a prefix on COS is complete exactly if the listing fits one page or the
  service names the next marker (`CosStorage.CosBackend.DeletePrefix`).
- A workspace path reads back after every forced write exactly when a read probes the
  written key first (`ReadBackIffProbedFirst`). Absolute paths do; a relative path does
  exactly when its first read fragment leads where its written one leads
  (`RelativeReadsBack`). What fails, by the number of leading `./` and the rest: `././`
  alone under a system prefix, three `./` before a system path (`PlainReadsBack`,
  `ThreeDotsLoseSystemPaths`), one or two `./` before a `~` that expands elsewhere
  (`TildeReadsBack`, `TildeAfterDotsIsLost`), and some rests with a slash in front
  (`SlashReadsBack`, `SlashBehindOneDotReadsBack`).
- A system prefix that begins with a tilde is accepted behind a `./`, and then every
  path is refused (`Renormalizes`, `TildePrefixRefusesAll`).
- A relative container path loses all its leading dots: it keeps its place exactly when
  it has none, and two paths share a container path exactly when they differ in those
  dots only, as `.env` and `env` do (`RelativeKeepsPlace`, `RelativeNamesCollide`,
  `HiddenNameCollides`).
- Rescaled segments add up to the target for 0, 1, 2 and from 12 on, and for no other
  target do they always (`TargetsAlwaysMet`).
- A directory listing listed again changes exactly when some entry has a blank just
  before the slashes it ends in (`ListingIdempotent`).
- When a whole language is missing, the skill listing does not mark the English files
  as a fallback, against its documentation (`MissingLanguageIsNotMarked`). What is copied
  and what is listed agree exactly when no file outside the skill directories of one tree
  makes a difference to the other (`CopiedIsListedIffHarmless`); a translated file beside
  no translated SKILL.md does (`TranslationOutsideSkillDir`).
- A server named twice repeats its tools (`PermutationUnlessRepeated`).
- A waiting ACP turn goes deaf to permission requests exactly when a callback is
  cancelled after the turn has been woken for it, the turn then acts on that wake-up
  before anything else is asked, and the prompt has not finished since (`DeafExactly`).
  From there one more request leaves the conversation waiting for ever (`DropCanStick`,
  `StuckIsDeadlock`). Apart from that, an open permission that offers an option always
  leaves a step that takes the conversation on (`OpenPermissionGoesOn`).
- A forced write over a file longer than ten million units keeps the rest of that
  file (`ForceWriteStores`).

## Model

| member | source | states |
|---|---|---|
| StorageKeys.PathRoundTrip | src/octop_harness/backends/cloud_storage_base.py:122-135 | path to key and back gives the path, exactly for the paths with one leading slash |
| StorageKeys.KeyRoundTrip | src/octop_harness/backends/cloud_storage_base.py:129-135 | key to path and back gives the key, exactly for the well-formed keys of the backend's prefix |
| StorageKeys.VirtualPathRooted | src/octop_harness/backends/cloud_storage_base.py:129-135 | every virtual path has exactly one leading slash, whatever the key |
| StorageKeys.CanonicalKey | src/octop_harness/backends/cloud_storage_base.py:122-127 | the key of a canonical path is the path without its slash behind the backend prefix |
| StorageKeys.PrefixKeyForm | src/octop_harness/backends/cloud_storage_base.py:140-144 | the prefix of a rooted directory ends in exactly one slash, with trailing slashes of the path gone |
| StorageKeys.RelativeToRoot | src/octop_harness/backends/utils.py:145-154 | the three outcomes of a relative path: the directory itself, a path below it, or none |
| StorageKeys.UnderDirectory | src/octop_harness/backends/cloud_storage_base.py:140-144 | a well-formed key starts with a directory's prefix key if and only if its virtual path lies strictly under the directory |
| StorageKeys.SubtreesDisjoint | src/octop_harness/backends/cloud_storage_base.py:140-144 | two directories that share a key contain one another: unrelated roots have disjoint subtrees |
| StorageKeys.NestedSubtrees | src/octop_harness/backends/cloud_storage_base.py:140-144 | every key of a directory is a key of each directory above it |
| ObjectStore.LeastKey | src/octop_harness/backends/s3_backend.py:422-438 | the order in which a service lists keys: the least key by code points |
| ObjectStore.Store.ListPage | src/octop_harness/backends/s3_backend.py:262-290 | a page holds the least keys after the marker with the prefix, in order, no more than fit, is marked as cut exactly when more keys are left than fit, and names its last key or nothing as the place to resume |
| ObjectStore.Store.Copy | src/octop_harness/backends/s3_backend.py:448-453 | the body of the source key also stands under the target, no other key changes |
| ObjectStore.Store.Delete | src/octop_harness/backends/s3_backend.py:455-457 | the key is gone, a missing one is no error, no other key changes |
| ObjectStore.Store.Put | src/octop_harness/backends/s3_backend.py:326-338 | the key holds the body, no other key changes |
| ObjectStore.NextPageContinues | src/octop_harness/backends/s3_backend.py:422-438 | listing after the last key of a cut page gives exactly what that page left out |
| ObjectStore.KeyPager.constructor | src/octop_harness/backends/s3_backend.py:420-422 | a new pager has every key under the prefix of the path still to hand out |
| ObjectStore.KeyPager.Next | src/octop_harness/backends/s3_backend.py:420-438 | each key handed out was pending in the store as it is now, is pending no more, and the pager ends exactly when none is pending |
| ObjectStore.KeyPager.Fetch | src/octop_harness/backends/s3_backend.py:420-438 | one list request loses and repeats no pending key |
| ObjectStore.KeyPager.PendingAfterDelete | src/octop_harness/backends/s3_backend.py:459-465 | deleting a key already handed out leaves the pending keys as they are, because pages resume from a key |
| ObjectStore.KeyPager.PendingAfterPut | src/octop_harness/backends/cloud_storage_base.py:451-459 | writing a key outside the prefix leaves the pending keys as they are |
| CosStorage.CosBackend.DeletePrefix | src/octop_harness/backends/cos_backend.py:242-258 | over the COS listing, keys under the path only are deleted, and all of them exactly if they fit one page or the service sends the next marker |
| TreeOperations.CloudStorageBackend.PrefixHasObjects | src/octop_harness/backends/s3_backend.py:440-446 | a list request for one key finds something exactly when some key has the prefix |
| TreeOperations.CloudStorageBackend.DeletePrefix | src/octop_harness/backends/s3_backend.py:459-465 | deleting each key as the lazy pager yields it removes exactly the keys with the prefix and returns their number, for every store and page size |
| TreeOperations.CloudStorageBackend.DeleteKeys | src/octop_harness/backends/s3_backend.py:459-465 | the loop removes exactly what was pending when it began |
| TreeOperations.CloudStorageBackend.DeletePath | src/octop_harness/backends/cloud_storage_base.py:405-412 | a file alone goes if there is one, otherwise everything under the path; not found exactly when there is neither |
| TreeOperations.CloudStorageBackend.MkdirPath | src/octop_harness/backends/cloud_storage_base.py:414-426 | markers for the levels from the top down to the first one where a file is in the way; success means every level has one |
| TreeOperations.CloudStorageBackend.MakeLevels | src/octop_harness/backends/cloud_storage_base.py:419-426 | the loop over the parts, with the levels above a refusal already made |
| TreeOperations.MarkersHoldNoFile | src/octop_harness/backends/cloud_storage_base.py:421-426 | none of the markers written is the key of a file, so a later level's check is not disturbed by an earlier one |
| TreeOperations.CloudStorageBackend.MovePath | src/octop_harness/backends/cloud_storage_base.py:428-445 | outcome and whole new store of a move, each guard's refusal leaving the store alone, unless the move is let into its own tree |
| TreeOperations.CloudStorageBackend.MovePrefix | src/octop_harness/backends/cloud_storage_base.py:447-460 | copying and deleting each key while paging is the relabelling of the store that was there at the start, for every destination outside the source tree, and the count is the number of source keys |
| TreeOperations.CloudStorageBackend.MoveKeys | src/octop_harness/backends/cloud_storage_base.py:451-459 | the loop from any pager on: the store is the old one with the pending keys relabelled |
| TreeOperations.CloudStorageBackend.MoveNext | src/octop_harness/backends/cloud_storage_base.py:451-459 | each pulled key extends the relabelling by exactly that key, and nothing becomes pending again |
| TreeOperations.CloudStorageBackend.MoveKey | src/octop_harness/backends/cloud_storage_base.py:452-459 | one round copies and deletes the very key it was given, or skips it |
| TreeOperations.TargetOutsideSource | src/octop_harness/backends/cloud_storage_base.py:433-457 | no moved key lands where the source listing could find it |
| TreeOperations.TargetReenters | src/octop_harness/backends/cloud_storage_base.py:433-457 | for every destination under which nothing is stored, a moved key lands in the source listing again exactly when the destination, its leading slashes reduced to one, is at or under the source (strictly under it, for the marker) |
| TreeOperations.RootedNeverReenters | src/octop_harness/backends/cloud_storage_base.py:433-434 | with one leading slash on the destination the guards never let a tree move into itself |
| TreeOperations.RelabelInjective | src/octop_harness/backends/cloud_storage_base.py:453-457 | two source keys never share a target |
| TreeOperations.TargetsOfTree | src/octop_harness/backends/cloud_storage_base.py:447-460 | a move to a destination outside the source takes every key under the source, none of them misread on the way through its virtual path |
| TreeOperations.MovableApart | src/octop_harness/backends/cloud_storage_base.py:431-436 | past the guards neither directory lies in the other |
| TreeOperations.GuardsPassed | src/octop_harness/backends/cloud_storage_base.py:431-443 | past the guards there is nothing to move, nothing that will match, a destination inside the source, or a tree that can be moved safely |
| TreeOperations.RootIsOccupied | src/octop_harness/backends/cloud_storage_base.py:435-441 | a file is never moved onto the empty key |
| TreeOperations.UnrootedSource | src/octop_harness/backends/cloud_storage_base.py:452-455 | a source with a doubled leading slash matches no virtual path, so nothing of it moves |
| MoveTheorems.MoveRelabels | src/octop_harness/backends/cloud_storage_base.py:428-460 | every key under the source reappears with its old body at its own place under the destination, injectively, and none remains at the source |
| MoveTheorems.MoveKeepsOthers | src/octop_harness/backends/cloud_storage_base.py:428-460 | no object outside the source changes, except a file the moved marker lands on |
| MoveTheorems.MoveConserves | src/octop_harness/backends/cloud_storage_base.py:428-460 | the number of objects is unchanged exactly when the moved marker lands on no file |
| MoveTheorems.CanonicalMoveConserves | src/octop_harness/backends/cloud_storage_base.py:435-436 | towards a canonical destination the guards rule that case out, so no object is lost |
| MoveTheorems.CanonicalMoveOccurs | src/octop_harness/backends/cloud_storage_base.py:428-460 | a directory with a marker and a file that such a move takes along |
| MoveTheorems.TrailingSlashLosesFile | src/octop_harness/backends/cloud_storage_base.py:435-456 | a store and a destination with a trailing slash for which the guards pass and a file is overwritten |
| MoveIntoItself.DoubledSlashReenters | src/octop_harness/backends/cloud_storage_base.py:431-441 | with two leading slashes on the destination, a move into the own tree passes every guard exactly on the stores where the place is free and the source is a directory |
| MoveIntoItself.MoveNeedNotEnd | src/octop_harness/backends/cloud_storage_base.py:447-460 | such a move of a directory with two files, over pages of one key, goes on for any number of rounds, every page holding a key the move has just made |
| MoveTheorems.WayBack | src/octop_harness/backends/cloud_storage_base.py:428-436 | after a directory move between canonical paths the move back passes every guard |
| MoveTheorems.MoveBackRestores | src/octop_harness/backends/cloud_storage_base.py:447-460 | moving there and back gives the original store exactly when the source had no marker object |
| FileMoves.MovesExactly | src/octop_harness/backends/cloud_storage_base.py:428-445 | between canonical paths a move takes place exactly if the source names something, the destination names nothing and does not lie at or under the source; it counts all that the source names, and otherwise changes nothing |
| FileMoves.FileIsMoved | src/octop_harness/backends/cloud_storage_base.py:438-441 | a moved file is gone from its place and is at the destination with its old body, every other object is as it was, and the number of objects is the same |
| FileMoves.FileComesBack | src/octop_harness/backends/cloud_storage_base.py:428-445 | moving a file there and back gives the original store exactly when nothing is stored under its name as a directory |
| FileMoves.FileMoveOccurs | src/octop_harness/backends/cloud_storage_base.py:438-441 | a file that is moved, and one with a directory of its name beside it |
| FileMoves.FragmentsAreAnchored | src/octop_harness/backends/utils.py:145-154 | a path without its leading slash, or behind `./`, is compared as if it had one |
| MkdirTheorems.PartsAreAll | src/octop_harness/backends/cloud_storage_base.py:416-419 | no part of a path is lost or made up: a name is its own part, and joining two paths joins their parts |
| MkdirTheorems.LastLevelIsPath | src/octop_harness/backends/cloud_storage_base.py:419-423 | the last level made for a directory of given names is that directory |
| MkdirTheorems.LevelsNest | src/octop_harness/backends/cloud_storage_base.py:421-423 | each level is the entry of the level above that the next part names |
| MkdirTheorems.MarkersExactly | src/octop_harness/backends/cloud_storage_base.py:421-426 | the markers written are those of the levels made, all and no other, each empty |
| MkdirTheorems.ClearExactly | src/octop_harness/backends/cloud_storage_base.py:424-425 | no file stands at any level that got its marker |
| DirectoryListing.FinalizeLsEntries | src/octop_harness/backends/cloud_storage_base.py:67-89 | the loop over the dictionary and the sort compute the listing the lemmas below describe |
| DirectoryListing.ListingIsExact | src/octop_harness/backends/cloud_storage_base.py:67-89 | strictly sorted with directories first, each path once, present exactly if an entry lands on it, a directory exactly if some entry says so, never the directory being listed |
| DirectoryListing.FolderListedOnce | src/octop_harness/backends/cloud_storage_base.py:79-87 | a folder reported by its marker is one directory of the listing, under its path without the slash, whatever else is reported of it |
| DirectoryListing.ListingIgnoresOrder | src/octop_harness/backends/cloud_storage_base.py:67-89 | paths and kinds depend neither on the order of the entries nor on repetitions |
| DirectoryListing.ListingIdempotent | src/octop_harness/backends/cloud_storage_base.py:67-89 | finalising a finalised listing changes nothing, exactly when no listed entry has a blank just before the slashes it ends in |
| DirectoryListing.BlankEntryShows | src/octop_harness/backends/cloud_storage_base.py:76-80 | a listed path ends in a blank exactly when such an entry is there |
| DirectoryListing.BlankBeforeSlash | src/octop_harness/backends/cloud_storage_base.py:76-80 | an entry whose listed path does end in a blank |
| DirectoryListing.SortedIsUnique | src/octop_harness/backends/cloud_storage_base.py:89 | there is only one strictly sorted arrangement of given paths and kinds |
| ListingEntries.DirectoriesFirst | src/octop_harness/backends/cloud_storage_base.py:89 | every directory stands before every file, and items of one kind in the order of their paths |
| ListingEntries.ListedEntries | src/octop_harness/backends/cloud_storage_base.py:73-88 | the items, with all they carry, are exactly the entries that are first to land on their path, or the first directory to do so behind files |
| ListingEntries.RootOnlyIfNamed | src/octop_harness/backends/cloud_storage_base.py:76-82 | no empty path is listed, and the root only if an entry names it |
| Sorting.SortOrders | src/octop_harness/decision/select.py:76 | the sort leaves no item behind one that belongs after it |
| Sorting.SortKeepsItems | src/octop_harness/decision/select.py:76 | the sort returns the same items, as often as before |
| Sorting.SortIsStable | src/octop_harness/decision/select.py:58 | items that tie keep their order |
| McpClient.ManagedMCPClient.StartTask | src/octop_harness/mcp_client.py:43-50 | refused once closed, and otherwise the owner task exists, created at most once |
| McpClient.ManagedMCPClient.PutRequest | src/octop_harness/mcp_client.py:88-92 | refused when the owner is done, and otherwise one more pending future at the end of the queue |
| McpClient.ManagedMCPClient.AcloseClient | src/octop_harness/mcp_client.py:110-116 | the first close puts one sentinel, later ones change nothing |
| McpClient.ManagedMCPClient.BecomeReady | src/octop_harness/mcp_client.py:58-62 | the ready future is settled and the owner waits at the queue |
| McpClient.ManagedMCPClient.TakeNext | src/octop_harness/mcp_client.py:63-70 | one round of the serving loop is the Take step: a cancelled request is passed over, the sentinel ends the loop |
| McpClient.ManagedMCPClient.CallReturned | src/octop_harness/mcp_client.py:74-76 | the value goes to the future of the open call if it is still pending |
| McpClient.ManagedMCPClient.CallRaised | src/octop_harness/mcp_client.py:71-73 | the error goes to the future of the open call if it is still pending |
| McpClient.ManagedMCPClient.Finish | src/octop_harness/mcp_client.py:80-86 | the draining loop is the Exit step: active request first, then everything queued |
| McpClient.RunKeepsInv | src/octop_harness/mcp_client.py:54-86 | the invariant of queue, turns and futures holds along every run |
| McpClient.DispatchedInOrder | src/octop_harness/mcp_client.py:63-70 | in every run requests are dispatched in enqueue order, each at most once, none from behind the sentinel |
| McpClient.OneCallAtATime | src/octop_harness/mcp_client.py:63-76 | the dispatched calls are the finished ones and at most one open one |
| McpClient.SettledOnce | src/octop_harness/mcp_client.py:71-86 | whatever follows, a settled future keeps its outcome |
| McpClient.CancelledNeverDispatched | src/octop_harness/mcp_client.py:66-67 | a request cancelled before its turn is not dispatched in any continuation |
| McpClient.NothingLeftUnsettled | src/octop_harness/mcp_client.py:80-86 | once the owner is done no enqueued request is left pending, slipped behind the sentinel or not |
| McpClient.BehindSentinelNeverAnswered | src/octop_harness/mcp_client.py:80-92 | a request behind the sentinel never gets a value |
| McpClient.AnswersWereDispatched | src/octop_harness/mcp_client.py:69-76 | only a dispatched request ever gets a value |
| McpOutcomes.QueueIsRun | src/octop_harness/mcp_client.py:63-64 | the queue, with what was taken from it, holds the requests of the run in their order and one sentinel, and the client is closed exactly if it was asked to |
| McpOutcomes.SettledExactly | src/octop_harness/mcp_client.py:66-86 | over every run a future has a value exactly if its own session call returned that value while it was pending; it is raised exactly if that call raised or the owner ended, and cancelled exactly by its own caller |
| McpOutcomes.ReturnAnswers | src/octop_harness/mcp_client.py:74-76 | what the open call returns is the answer of its request, unless the caller no longer waits, and of no other |
| McpOutcomes.AnswerOccurs | src/octop_harness/mcp_client.py:54-76 | a first request, dispatched and answered with the value that its call returns |
| McpOutcomes.CloseEnds | src/octop_harness/mcp_client.py:63-86 | a closed client takes a bounded number of its own steps, and comes to rest only with its owner done, or never started |
| McpOutcomes.FailureEnds | src/octop_harness/mcp_client.py:77-86 | a failed owner is done one step later, with every future settled |
| AgentLifecycle.Lifecycle.EnterInvocation | src/octop_harness/agent.py:1004-1005 | the counter and the flag keep standing for the history of invocations and closes |
| AgentLifecycle.Lifecycle.ExitInvocation | src/octop_harness/agent.py:1009-1016 | the exit that empties the agent with a close pending takes the pending close along to its own close call |
| AgentLifecycle.Lifecycle.DeferCloseWhileBusy | src/octop_harness/agent.py:1018-1029 | a close is deferred or decides a release, and the history records which |
| AgentLifecycle.RunKeepsInv | src/octop_harness/agent.py:993-1029 | the invariant holds along every interleaving |
| AgentLifecycle.CounterCountsOpen | src/octop_harness/agent.py:1004-1013 | the counter is the number of open invocations, and a pending close implies one |
| AgentLifecycle.ReleasesFindAgentIdle | src/octop_harness/agent.py:1018-1029 | every release was decided when all invocations begun before it had ended |
| AgentLifecycle.NoCloseIsLost | src/octop_harness/agent.py:1009-1029 | when nothing is open and no exit still carries a close, every close request was served by a release, even if an invocation began between an exit and its close call |
| AgentLifecycle.WindDownEnds | src/octop_harness/agent.py:1004-1029 | once nothing new begins, a bounded number of steps leads to that state and nowhere else |
| AgentReleases.HistoryIsRun | src/octop_harness/agent.py:1004-1029 | the recorded invocations and close requests are exactly those of the run |
| AgentReleases.ReleasesNeedCloses | src/octop_harness/agent.py:1009-1029 | in every run the releases, the parked close and the carried ones together are no more than the close requests |
| AgentReleases.NoReleaseWithoutClose | src/octop_harness/agent.py:1009-1016 | a run without a close request releases nothing and carries nothing |
| AgentReleases.ReleasedExactly | src/octop_harness/agent.py:1018-1029 | a step releases exactly if it is a close, asked for or carried, and every invocation begun in the run has ended; otherwise the close is parked |
| AgentReleases.CarriedExactly | src/octop_harness/agent.py:1009-1016 | an exit takes a close along exactly if one is parked and no other invocation is open |
| AgentReleases.DeferredCloseOccurs | src/octop_harness/agent.py:1004-1029 | a close asked for during an invocation and served behind it |
| AcpConversation.Conversation.StartTurn | src/octop_harness/acp/service.py:78-97 | refused while a permission is pending or the prompt is unfinished, otherwise a new prompt is watched |
| AcpConversation.Conversation.ResumePermission | src/octop_harness/acp/service.py:107-117 | the guards before the lock refuse it unless a permission is pending and the prompt unfinished; it waits when the lock is taken, and goes on to its wait only with an offered option |
| AcpConversation.Conversation.AcquireLock | src/octop_harness/acp/service.py:114-117 | the waiting resume call goes on under the lock, by what then is pending |
| AcpConversation.Conversation.ResumeLocked | src/octop_harness/acp/service.py:114-117 | the event is cleared, an offered option settles the future unless it is settled, and the unfinished prompt is watched |
| AcpConversation.Conversation.StartListening | src/octop_harness/acp/client.py:49-50 | an event set before the listening task took its first step still wakes it |
| AcpConversation.Conversation.OutcomeKnown | src/octop_harness/acp/service.py:265-281 | reports the pending permission and frees the turn, or goes on to join the prompt |
| AcpConversation.Conversation.PromptJoined | src/octop_harness/acp/service.py:283-299 | the prompt task is dropped and the outcome reported |
| AcpConversation.Conversation.AskPermission | src/octop_harness/acp/client.py:68-90 | the agent's request is announced before it is pending |
| AcpConversation.Conversation.SuspendPrompt | src/octop_harness/acp/client.py:88-98 | the request becomes pending with its own future and wakes a listening turn, or is turned down at once when hard-blocked |
| AcpConversation.Conversation.DeliverAnswer | src/octop_harness/acp/client.py:97-102 | the agent gets the answer given to its own future, and nothing stays pending |
| AcpConversation.RunKeepsInv | src/octop_harness/acp/service.py:58-117 | the invariant of one conversation holds along every run |
| AcpConversation.AtMostOnePrompt | src/octop_harness/acp/service.py:83-96 | at most one prompt task is unfinished, and it is the conversation's own |
| AcpConversation.PendingPermissionRefusesTurn | src/octop_harness/acp/service.py:79-86 | a pending permission belongs to the unfinished prompt, and a new turn then changes nothing |
| AcpConversation.AnswersWereOffered | src/octop_harness/acp/client.py:52-66 | every answer is one of the options its request offered |
| AcpConversation.AnsweredOnce | src/octop_harness/acp/client.py:63-66 | a given answer never changes |
| AcpConversation.ResumeContinuesSamePrompt | src/octop_harness/acp/service.py:99-117 | an accepted resume waits for the very prompt that asked for the permission, and that prompt is unfinished |
| AcpConversation.NothingPendingAfterJoin | src/octop_harness/acp/service.py:290-298 | the second look at the pending permission never finds one |
| AcpConversation.RequestIsHeard | src/octop_harness/acp/service.py:265-277 | a waiting turn hears of an open, unanswered permission within two steps of its own, and reports that very permission |
| AcpConversation.OpenPermissionGoesOn | src/octop_harness/acp/service.py:99-117 | with a permission open, some step other than a cancellation, a refused or a queued call is possible exactly when the turn is not deaf and the request, if it still needs an answer from outside, offers an option |
| AcpConversation.WokenForNothingExactly | src/octop_harness/acp/service.py:265-277 | a turn has been woken for a permission no longer pending exactly when its callback was cancelled after the wake-up and no new request, wake, abandonment or end of the prompt followed |
| AcpConversation.DeafExactly | src/octop_harness/acp/service.py:265-284 | the exact condition, over all runs, for a turn to wait for the prompt alone while that prompt is unfinished |
| AcpConversation.NeverDeafWithoutDrop | src/octop_harness/acp/service.py:265-284 | in a run without a cancelled callback no turn ever waits for an unfinished prompt alone |
| AcpConversation.StuckIsDeadlock | src/octop_harness/acp/service.py:265-284 | in a stuck conversation exactly these steps are possible: cancelling the callback, and calls that queue for the lock or leave the queue |
| AcpConversation.DropCanStick | src/octop_harness/acp/client.py:94-102 | from every state in which a request has woken the turn, cancelling its callback and asking again, with any options, ends stuck |
| AcpConversation.WokenTurnOccurs | src/octop_harness/acp/service.py:89-97 | such a state, in the first turn of a conversation |
| AcpAnswers.AskedExactly | src/octop_harness/acp/client.py:68-90 | over every run each permission is the request of one step, with the task that asked and the options it offered |
| AcpAnswers.AnsweredExactly | src/octop_harness/acp/client.py:52-66 | over every run a permission is answered with an option exactly if some resume call of the run gave that very option while the permission was pending, offered it and had no answer |
| AcpAnswers.ResumeAnswers | src/octop_harness/acp/service.py:114-117 | an accepted resume, at once or from the queue, records the option it was given for the permission that is open |
| AcpAnswers.QueuedExactly | src/octop_harness/acp/service.py:107-114 | the option that waits for the lock is that of the resume call which had to wait |
| AcpAnswers.PromptStartsExactly | src/octop_harness/acp/service.py:78-97 | a prompt begins exactly with a turn that finds nothing pending and no prompt unfinished, and stays the conversation's own until it has been joined |
| AcpAnswers.LockFreedExactly | src/octop_harness/acp/service.py:265-299 | the lock is given back exactly by reporting a permission, by joining the prompt and by a cancelled caller |
| AcpAnswers.PendingExactly | src/octop_harness/acp/client.py:91-102 | a permission is pending from the step that suspends the prompt to the one that closes it |
| PosixPaths.NormalizedIsClean | src/octop_harness/backends/docker_sandbox.py:178-191 | a rooted path without backslashes normalises to parts without dots, parent steps or empty names |
| PosixPaths.NormalizedClean | src/octop_harness/backends/docker_sandbox.py:178-191 | such a path is its own normal form |
| PosixPaths.UnderMeansExtends | src/octop_harness/backends/docker_sandbox.py:661-662 | the string test for at-or-under agrees with the prefix order on parts |
| DockerPaths.NormalizeContainerPath | src/octop_harness/backends/docker_sandbox.py:178-191 | the stack loop computes the normal form the lemmas speak of |
| DockerPaths.MapPathContained | src/octop_harness/backends/docker_sandbox.py:657-687 | every agent path is mapped to the workspace root or under it, with no dots or parent steps left |
| DockerPaths.MapPathIdempotent | src/octop_harness/backends/docker_sandbox.py:665-687 | mapping a mapped path changes nothing |
| DockerPaths.MapPathFixed | src/octop_harness/backends/docker_sandbox.py:678-679 | a container path already in place stays there |
| DockerPaths.AgentRoundTrip | src/octop_harness/backends/docker_sandbox.py:665-719 | a canonical agent path survives the trip into the container and back exactly when it is not at or under the root already |
| DockerPaths.ContainerRoundTrip | src/octop_harness/backends/docker_sandbox.py:665-719 | a container path under the root survives the trip to the agent and back exactly when its agent view is not itself at or under the root |
| DockerPaths.RelativeForm | src/octop_harness/backends/docker_sandbox.py:681-685 | a relative path of ordinary names is mapped under the root, without its leading dots |
| DockerPaths.RelativeKeepsPlace | src/octop_harness/backends/docker_sandbox.py:681-685 | it is mapped to its own place exactly when it does not begin with a dot |
| DockerPaths.RelativeNamesCollide | src/octop_harness/backends/docker_sandbox.py:681-685 | two of them share a container path exactly when they differ in leading dots only |
| DockerPaths.HiddenNameCollides | src/octop_harness/backends/docker_sandbox.py:681-685 | every hidden name shares the container path of its visible namesake |
| ParentSteps.ParentCancels | src/octop_harness/backends/docker_sandbox.py:178-191 | a parent step takes back exactly the name before it, whatever stands around the two |
| ParentSteps.NormalizedParts | src/octop_harness/backends/docker_sandbox.py:178-191 | every rooted path, but for those with exactly two leading slashes, normalises to its parts with the parent steps resolved |
| ParentSteps.NormalizedCancels | src/octop_harness/backends/docker_sandbox.py:178-191 | `/a/x/../b` normalises as `/a/b` |
| ParentSteps.NormalizedAtRoot | src/octop_harness/backends/docker_sandbox.py:178-191 | a parent step at the root does nothing |
| ParentSteps.AgentPathResolves | src/octop_harness/backends/docker_sandbox.py:665-687 | every absolute path that is not in place yet is resolved from the workspace root, and mapped to the root if it leaves it |
| ParentSteps.ContainerPathResolves | src/octop_harness/backends/docker_sandbox.py:678-679 | every path that begins with the root is resolved from `/`, and mapped to the root if it leaves it |
| ParentSteps.RelativePathResolves | src/octop_harness/backends/docker_sandbox.py:681-685 | every relative path, its leading dots and slashes gone, is resolved from the root in the same way |
| ParentSteps.AbsolutePathParts | src/octop_harness/backends/docker_sandbox.py:665-687 | the two laws for absolute paths cover every one: it is made of the parts between its slashes |
| ParentSteps.MapPathCancels | src/octop_harness/backends/docker_sandbox.py:665-687 | `/a/x/../b` is mapped where `/a/b` is |
| ParentSteps.ClimbingOutIsHeld | src/octop_harness/backends/docker_sandbox.py:657-663 | a path that climbs out of the root is mapped to the root, unless it names the root folder again |
| ParentSteps.ContainerPathIsSeen | src/octop_harness/backends/docker_sandbox.py:697-719 | the agent's view of any absolute container path, parent steps included: the rest behind the root, or the path itself outside, unless its text begins with the root's |
| ParentSteps.RelativeContainerPathIsSeen | src/octop_harness/backends/docker_sandbox.py:707-719 | the same for relative container paths |
| WorkspaceKeys.SystemPrefixForm | src/octop_harness/backends/workspace.py:108-125 | an accepted system prefix is empty or joined from ordinary names: no empty one, no dots and no parent step |
| WorkspaceKeys.Renormalizes | src/octop_harness/backends/workspace.py:108-141 | normalising an accepted prefix again, as every call does, gives it back, or refuses it exactly when it begins with a tilde |
| WorkspaceKeys.TildePrefixRefusesAll | src/octop_harness/backends/workspace.py:115-141 | a prefix is accepted with which every path is refused |
| WorkspaceKeys.ApplySystemPrefixIdempotent | src/octop_harness/backends/workspace.py:135-157 | for every path, backslashes included: refused exactly when the accepted prefix begins with a tilde, and otherwise prefixing twice is prefixing once |
| WorkspaceKeys.RelativeKeyContained | src/octop_harness/backends/workspace.py:505-556 | a relative path, with its backslashes read as slashes, is refused exactly when it resolves outside the workspace (or the prefix is refused), and otherwise its key is the remote root or lies under it, with no dots left |
| ParentSteps.FragmentResolves | src/octop_harness/backends/workspace.py:535-556 | a fragment resolves to its parts, from the workspace directory or from the root |
| ParentSteps.FragmentCancels | src/octop_harness/backends/workspace.py:535-556 | `a/x/../b` is the place that `a/b` is, and has its key |
| ParentSteps.ClimbingOutIsRefused | src/octop_harness/backends/workspace.py:535-548 | a fragment that begins with a parent step is refused, unless it names the workspace folder again |
| WorkspacePlaces.SystemEntries | src/octop_harness/backends/workspace.py:81-132 | the names of the system entries, and those of which older places are read |
| WorkspacePlaces.PrefixExactly | src/octop_harness/backends/workspace.py:108-125 | which values for the prefix are accepted, and that what is accepted are their names |
| WorkspacePlaces.RelativePathIsStored | src/octop_harness/backends/workspace.py:535-556 | the key of every ordinary relative path: in the remote folder, behind the prefix exactly if its first name is a system entry and it is not under the prefix already |
| WorkspaceKeys.AbsolutePathIsMapped | src/octop_harness/backends/workspace.py:558-572 | an absolute path in the workspace directory goes to its place in the remote folder, and any other stays as it is |
| WorkspacePlaces.AbsolutePathIsStored | src/octop_harness/backends/workspace.py:531-533 | an absolute path gets the prefix as a relative one does, and is mapped after that |
| WorkspacePlaces.TwoNamesOfAFile | src/octop_harness/backends/workspace.py:505-572 | the relative and the absolute name of a file in the workspace give one key |
| WorkspacePlaces.ReadOrder | src/octop_harness/backends/workspace.py:411-435 | the whole list of keys that a read of an ordinary path tries, in order: the written place, the flattened one, and both for where the path lay before the prefix |
| WorkspaceKeys.RemoteRootForm | src/octop_harness/backends/workspace.py:335-347 | the remote root is a canonical path |
| WorkspaceKeys.WorkspacesApart | src/octop_harness/backends/workspace.py:335-347 | two workspaces share a key exactly when one remote root contains the other |
| WorkspaceKeys.DifferentNamesApart | src/octop_harness/backends/workspace.py:343-347 | host workspaces with different folder names share no key |
| WorkspaceFiles.Backend.Write | src/octop_harness/backends/cloud_storage_base.py:254-275 | create-only: an existing file is kept and reported |
| WorkspaceFiles.Backend.Read | src/octop_harness/backends/cloud_storage_base.py:240-252 | the stored body cut to the limit, or nothing |
| WorkspaceFiles.Backend.Edit | src/octop_harness/backends/cloud_storage_base.py:277-305 | one occurrence is replaced, an ambiguous one is refused |
| WorkspaceFiles.BackendWriteForce | src/octop_harness/backends/utils.py:115-142 | write, then read, then edit come to the map the lemmas speak of, and a failure changes nothing |
| WorkspaceFiles.ForceWriteStores | src/octop_harness/backends/utils.py:115-142 | after success the file holds exactly the content, unless it had to replace a file longer than the write looks at, and no other file changes |
| WorkspaceFiles.ForceWriteExactly | src/octop_harness/backends/utils.py:115-142 | it fails exactly if it would replace the first ten million units of a longer file and these occur in it again, and otherwise leaves the content with the rest of such a file behind it |
| WorkspaceFiles.CutIsFront | src/octop_harness/backends/cloud_storage_base.py:240-252 | a cut read is the front of the body, as much as was asked for |
| WorkspaceFiles.BackendWorkspace.ReadText | src/octop_harness/backends/workspace.py:718-746 | the nested loops over fragments and keys probe the keys in the fixed order |
| WorkspaceFiles.BackendWorkspace.Exists | src/octop_harness/backends/workspace.py:708-716 | true exactly when a read would find something |
| WorkspaceFiles.BackendWorkspace.WriteText | src/octop_harness/backends/workspace.py:748-764 | one key is written, forced or create-only, and an escaping path writes nothing |
| WorkspaceFiles.ReadsFirstExisting | src/octop_harness/backends/workspace.py:718-746 | a read gives the first existing key of the candidate order, and nothing only if none exists |
| WorkspaceReadBack.ReadBackIffProbedFirst | src/octop_harness/backends/workspace.py:708-764 | a path reads back after every forced write, on every store, exactly when a read probes the written key first |
| WorkspaceReadBack.ReadBack | src/octop_harness/backends/workspace.py:708-764 | then, after a successful forced write, the path exists and reads as written, whatever legacy copies exist |
| WorkspaceReadBack.AbsoluteReadsBack | src/octop_harness/backends/workspace.py:411-415 | absolute paths read back |
| WorkspaceReadBack.HomeReadsBack | src/octop_harness/backends/workspace.py:411-415 | home paths do exactly if their backslashes make no difference to where they expand to |
| WorkspaceReadBack.BackslashReadsBack | src/octop_harness/backends/workspace.py:393-415 | a path that begins with a backslash reads back: the write and the read name the same place in different ways |
| WorkspaceReadBack.RelativeReadsBack | src/octop_harness/backends/workspace.py:411-435 | any other relative path reads back exactly if its first read fragment leads where its written fragment leads |
| WorkspaceReadBack.PlainReadsBack | src/octop_harness/backends/workspace.py:389-435 | with an ordinary rest: always, but for two `./` alone under a prefix, and three before a system path that the prefix leads elsewhere |
| WorkspaceReadBack.TildeReadsBack | src/octop_harness/backends/workspace.py:389-435 | with a rest that begins with a tilde: exactly behind three `./` or more, or if the tilde expands to the same place |
| WorkspaceReadBack.SlashReadsBack | src/octop_harness/backends/workspace.py:389-435 | with a rest that begins with a slash, behind two `./` or more: exactly if the absolute place is the written one (two), or the same as the relative one (three) |
| WorkspaceReadBack.SlashBehindOneDotReadsBack | src/octop_harness/backends/workspace.py:389-435 | the same behind one `./`, where the read drops the slashes and the write does not |
| WorkspaceReadBack.ThreeDotsLoseSystemPaths | src/octop_harness/backends/workspace.py:389-435 | every system path of ordinary names that the prefix is put before is lost behind three `./` |
| WorkspaceReadBack.ThreeDotsLoseSystemPathsOccurs | src/octop_harness/backends/workspace.py:128-157 | a prefix and a system path it is put before |
| WorkspaceReadBack.TildeAfterDotsIsLost | src/octop_harness/backends/workspace.py:411-419 | wherever the home lies outside: a path written in the workspace and read in the home |
| ModelCache.RefersToProvider | src/octop_harness/llm/factory.py:224-229 | "starts with the provider's name and a slash" is "the first part is that name" |
| ModelCache.BuildableHasSlash | src/octop_harness/llm/factory.py:207-213 | no buildable model has a reference without a slash, so the eviction test misses none |
| ModelLookup.FoundExactly | src/octop_harness/llm/factory.py:204-216 | a reference is built exactly if its provider is in the table, the first model with that identifier is enabled and its builder takes it, and from these with the given retries |
| ModelLookup.EvictedExactly | src/octop_harness/llm/factory.py:224-229 | eviction drops the models whose reference has that provider for its first part, and keeps every other one |
| ModelLookup.PoppedExactly | src/octop_harness/llm/factory.py:218-222 | dropping a reference drops every retry variant of it, and keeps every other model |
| ModelCache.EvictionRestores | src/octop_harness/llm/factory.py:224-229 | evicting one provider after changing its entry leaves only up-to-date models |
| ModelCache.ChatModelFactory.GetChatModel | src/octop_harness/llm/factory.py:193-216 | hit or miss, the result is what building from the current table would give, and errors cache nothing |
| ModelCache.ChatModelFactory.PopCached | src/octop_harness/llm/factory.py:218-222 | every retry variant of one reference goes, nothing else |
| ModelCache.ChatModelFactory.ClearProviderCache | src/octop_harness/llm/factory.py:224-229 | the loop over references evicts exactly the provider's models |
| ModelCache.ChatModelFactory.Close | src/octop_harness/llm/factory.py:231-235 | nothing stays cached |
| ModelCache.AgentManager.AddProvider | src/octop_harness/manager.py:476-484 | the provider is replaced in the table and its models evicted, or a first factory is made |
| ModelCache.AgentManager.RemoveProvider | src/octop_harness/manager.py:486-491 | the provider leaves the table and its models are evicted |
| ModelCache.RunKeepsCacheCoherent | src/octop_harness/llm/factory.py:193-235 | after any run of lookups, provider changes, evictions and closes, every cached model is what a fresh build would give |
| ContextUsage.RoundHalfEvenIsNearest | src/octop_harness/context_usage.py:251 | the rounding is the nearest integer, the even one of two |
| ContextUsage.Largest | src/octop_harness/context_usage.py:254 | the segment that takes the drift is the first of the largest |
| ContextUsage.DriftBound | src/octop_harness/context_usage.py:251-252 | rounding seven shares drifts by three tokens at most, and never doubles their sum |
| ContextUsage.SegmentsNeverNegative | src/octop_harness/context_usage.py:245-256 | seven segments, none negative, for every input |
| ContextUsage.SegmentsSumToTarget | src/octop_harness/context_usage.py:245-256 | the segments add up to the target whenever the raw total is positive and the target is at most 2 or at least 12 |
| ContextUsage.TargetsAlwaysMet | src/octop_harness/context_usage.py:245-256 | exactly those targets are met for all raw estimates |
| ContextUsage.SegmentsKeepProportions | src/octop_harness/context_usage.py:251-255 | every segment but the corrected one is within half a token of its share |
| ContextUsage.EstimateCounts | src/octop_harness/context_usage.py:248 | the estimate of a segment counts as it is, and a missing or negative one as 0 |
| ContextUsage.NothingToScale | src/octop_harness/context_usage.py:246-250 | there is nothing to rescale exactly if no estimate is positive; then, and without a target, every segment is 0 |
| ContextUsage.MissedTarget | src/octop_harness/context_usage.py:252-255 | for each target from 3 to 11, raw estimates whose segments exceed it |
| BuiltinSkills.Workspace.CopyTree | src/octop_harness/builtin/_sync.py:145-158 | the recursive copy leaves the files of the tree over what was there |
| BuiltinSkills.Workspace.Sync | src/octop_harness/builtin/_sync.py:33-109 | English, then the language over it, then the version; nothing when up to date or without English; the fallback paths when the language is missing |
| BuiltinSkills.CollectSkillPaths | src/octop_harness/builtin/_sync.py:112-121 | the paths below the visible directories, in walk order |
| BuiltinSkills.CollectPathsRecursive | src/octop_harness/builtin/_sync.py:124-132 | the paths of a subtree behind those already collected |
| BuiltinSkills.MergedFiles.Collect | src/octop_harness/builtin/templates.py:176-204 | a fallback pass only fills gaps and any other pass replaces, for a whole subtree |
| BuiltinSkills.MergedFiles.CollectSkills | src/octop_harness/builtin/templates.py:88-99 | one pass over a language enters its skill directories only |
| BuiltinSkills.IterBuiltinSkills | src/octop_harness/builtin/templates.py:52-105 | the two passes give the listing the lemmas speak of |
| BuiltinSkills.WalkIsLookup | src/octop_harness/builtin/_sync.py:145-158 | a path of names holds a file after a copy exactly when looking it up in the tree finds one, with that content |
| BuiltinSkills.LanguageOverEnglish | src/octop_harness/builtin/templates.py:84-99 | in the listing the language wins on every path it has, English fills every other, and the mark says which |
| BuiltinSkills.SyncedFile | src/octop_harness/builtin/_sync.py:82-102 | the same for the copied files, and files of neither tree are kept |
| BuiltinSkills.CopiedIsListed | src/octop_harness/builtin/_sync.py:82-102 | successive copies leave the path-to-content map that the listing computes by merging, for all trees of skill directories |
| BuiltinSkills.CopiedIsListedIffHarmless | src/octop_harness/builtin/templates.py:84-99 | for any two trees, copy and listing agree exactly when every file of the language outside its skill directories is also served from English with the same content, and every English one is overwritten by the language's skill directories |
| BuiltinSkills.CopyIsListingIffNoStrays | src/octop_harness/builtin/templates.py:89-93 | for one tree the two agree exactly when no visible file lies outside the skill directories |
| BuiltinSkills.TranslationOutsideSkillDir | src/octop_harness/builtin/templates.py:96-99 | a translated file beside no SKILL.md of its language: what is copied and what is listed differ |
| BuiltinSkills.TranslationOutsideSkillDirOccurs | src/octop_harness/builtin/templates.py:96-99 | such a package |
| BuiltinSkills.SyncWritesBelowRoot | src/octop_harness/builtin/_sync.py:145-158 | every copied file lies below the target directory and none is the version file |
| BuiltinSkills.FallbackPathsAreCopied | src/octop_harness/builtin/_sync.py:97-99 | with the language missing, the reported paths are exactly the copied ones |
| BuiltinSkills.MissingLanguageIsNotMarked | src/octop_harness/builtin/templates.py:78-83 | with the language missing, the listing is the English one and marks nothing as a fallback |
| SkillTrees.NothingHidden | src/octop_harness/builtin/_sync.py:151-153 | nothing with a name that begins with a dot or two underscores is copied, nor anything below it |
| SkillTrees.LookupFinds | src/octop_harness/builtin/_sync.py:145-158 | every other file is, with its content, and what is below every other directory |
| SkillTrees.ListedExactly | src/octop_harness/builtin/templates.py:89-93 | the listing of one language serves exactly the visible files below directories with a SKILL.md file of their own |
| SkillTrees.SyncedIsUpToDate | src/octop_harness/builtin/_sync.py:135-142 | after a sync the workspace is up to date for exactly the version it was synced to, and never without a version file |
| Selection.KeepConfident | src/octop_harness/decision/select.py:62-88 | the code keeps what the lemmas below describe, of the descending ranking of the ids |
| Selection.AddNearMisses | src/octop_harness/decision/select.py:78-85 | the slack loop extends the list to the longest run of the ranking that reaches the floor and fits |
| Selection.RankingDescends | src/octop_harness/decision/select.py:76 | the ranking is a descending arrangement of all ids with their scores |
| Selection.ScoresAreGiven | src/octop_harness/decision/select.py:62-76 | the ranking holds each id with its own score, and 0 for one without a score |
| Selection.KeepsTheHighest | src/octop_harness/decision/select.py:62-88 | an id of the ranking is kept exactly when its place is within the limit and its score reaches threshold less slack |
| Selection.NoneWhenNothingClears | src/octop_harness/decision/select.py:77-87 | None exactly when no score clears the floor in use |
| Selection.SlackOnlyAdds | src/octop_harness/decision/select.py:77-88 | what is kept without slack is a prefix of what is kept with it, and both fit the limit |
| Selection.NegativeLimit | src/octop_harness/decision/select.py:88 | a negative limit keeps those that reach the threshold, but for so many of the last |
| Selection.LexicalShortlist | src/octop_harness/decision/select.py:33-59 | the scoring loop and the sort give the shortlist the lemmas speak of |
| Selection.ShortlistKeepsTheHighest | src/octop_harness/decision/select.py:49-59 | no item is dropped that scores higher than a kept one, and overlapping items are dropped only for lack of room |
| Selection.NoShortlist | src/octop_harness/decision/select.py:45-57 | None exactly when the catalog is too long and nothing in it shares a token with the query |
| Selection.ShortlistIsStable | src/octop_harness/decision/select.py:58 | items of equal score stay in catalog order |
| Selection.ShortlistOrder | src/octop_harness/decision/select.py:45-59 | a catalog that fits is kept whole, and a longer one comes in the order of the scores |
| Selection.ScoreCounts | src/octop_harness/decision/select.py:53 | each token of the query adds one to the score exactly if it occurs |
| Selection.OccursSomewhere | src/octop_harness/decision/select.py:53 | a token occurs exactly if the text is something, the token and something more |
| ToolOrdering.PrioritizeActiveMcpTools | src/octop_harness/mcp.py:281-316 | the loops and buckets give the order the lemmas speak of |
| ToolOrdering.ServerOf | src/octop_harness/mcp.py:304-309 | a tool falls to the first active server whose prefix its name has, and to none if no prefix fits |
| ToolOrdering.FirstMatch | src/octop_harness/mcp.py:304-309 | the first active server whose prefix the tool's name has |
| ToolOrdering.Concatenated | src/octop_harness/mcp.py:313-316 | the buckets of the active servers one after the other, in the servers' order |
| ToolOrdering.FilterToolsForMcpServers | src/octop_harness/mcp.py:319-350 | the filter keeps exactly the non-MCP tools and those of an active server, in order |
| ToolOrdering.PrioritizedIsStableSort | src/octop_harness/mcp.py:281-316 | with distinct active servers the result is the stable sort: other tools first, then the servers in their order, then the rest |
| ToolOrdering.PrioritizedCount | src/octop_harness/mcp.py:281-316 | how often each tool is in the result, for any list of servers |
| ToolOrdering.PermutationUnlessRepeated | src/octop_harness/mcp.py:313-316 | the result is a permutation exactly when no server named twice owns a tool |
| ToolOrdering.FilterCommutes | src/octop_harness/mcp.py:281-350 | ordering and filtering may be done in either order |
| ToolOrdering.FilterDropsOthers | src/octop_harness/mcp.py:319-350 | filtering for the same servers removes exactly the last group |
| ToolOrdering.NameOfOwn | src/octop_harness/mcp.py:304-309 | a tool is a server's own exactly if its name is the server's, an underscore and the rest |
| ToolOrdering.NoActiveServers | src/octop_harness/mcp.py:281-350 | without active servers the order stays, and the filter leaves the non-MCP tools |
| ReasoningPayload.AttachReasoning | src/octop_harness/llm/factory.py:519-538 | in place, the j-th assistant entry gets the reasoning of the j-th AI message and every other entry stays |
| ReasoningPayload.SkipToAI | src/octop_harness/llm/factory.py:529-532 | the inner loop stops at the next AI message, with only other messages in between, or at the end |
| ReasoningPayload.EveryReasoningOnce | src/octop_harness/llm/factory.py:525-537 | each reasoning is used for one assistant entry while there are any left |
| ReasoningPayload.OnlyReasoningChanges | src/octop_harness/llm/factory.py:535-537 | an entry that changes is an assistant entry and keeps all its other keys |
| ReasoningPayload.ReasoningIsSet | src/octop_harness/llm/factory.py:534-537 | a reasoning that is there and not empty is what its entry then carries; otherwise the entry stays |
| ReasoningPayload.ReasoningAt | src/octop_harness/llm/factory.py:529-534 | the reasonings are those of the AI messages in their order |
| ReasoningPayload.ReasoningCount | src/octop_harness/llm/factory.py:529-534 | and of every one of them |

## Left out

- TreeOperations.CloudStorageBackend.MovePath: not modelled for a move that the guards let into its own tree (`Reenters`), which need not end; where it does end, the result depends on where the pages end.
- TreeOperations.CloudStorageBackend.MovePrefix: the same, and moves over a COS listing whose service does not name the next marker; `CosStorage` says what such a listing leaves out.
- ObjectStore.Store.Copy: the key copied from exists and the key copied to is not empty, as the services demand; the callers in the model establish both.
- ContextUsage.SegmentsSumToTarget: the quotient is exact, where the source divides in floating point.
- BuiltinSkills.IterBuiltinSkills: gives the listing as a map from path to what is served; the sort by path at the end is not modelled, and the listing of a single language is taken to fill a map too.
- BuiltinSkills.Workspace.Sync: forced writes are taken to succeed (see `WorkspaceFiles` for when they store what was written), and a failing one would end the copy half way.
- Selection.LexicalShortlist: takes the query's tokens and the lower-cased text of each item as given; the token expressions are not modelled.
- ReasoningPayload.AttachReasoning: entries of the outgoing list are taken to be separate dictionaries.
- McpClient: the owner task is taken to get its first step; closing the event loop before that leaves the future unsettled.
- AgentLifecycle: ends at the decision to release; the release itself runs after the lock is dropped.
- AcpConversation: one conversation, with one outstanding permission per prompt and no prompt returning while its permission is open; at most one resume call waits for the lock, and which request it was meant for is not recorded; opening the same session twice, cancelling a turn that awaits its prompt, and closing the conversation are not modelled.
- WorkspaceKeys: paths are free of blanks at their ends; resolving is lexical, without symbolic links, and only remote (cloud) backends are covered.
- ParentSteps.NormalizedParts: leaves out paths with exactly two leading slashes, which get a root of their own in the code and in the model.
- WorkspacePlaces.ReadOrder: ordinary paths only, without dots, parent steps and a tilde in front; `WorkspaceReadBack` and `ParentSteps` are about those.
- WorkspaceReadBack.SlashBehindOneDotReadsBack: leaves the rests that begin with `./`, a tilde or nothing after those slashes to `RelativeReadsBack`.
- DockerPaths: paths are free of blanks at their ends.
- WorkspaceFiles.Backend.Read: a read with a limit is taken to give that many first units of the body; offsets and the slicing by lines in deepagents are not part of this model.
- WorkspaceFiles.Backend.Edit: replaces a text that the file begins with, which is how a forced write calls it; other texts and replacing all occurrences are not modelled, and the replacing done in deepagents is not part of this model.
- ModelCache: the dictionary of a factory is not shared with anything but the manager, and a model that is dropped while in use is not followed further.
- DirectoryListing: blanks are the ASCII ones, and the size and time of an entry are one opaque value.
- Postgres listing and deletion: a LIKE pattern with `_` and `%` unescaped has no exact-prefix meaning.
- Network, SDK, Docker, subprocess, SQLite and HTTP calls, signatures and the fallback between list versions beyond the shape of the answer.
- The resume configurations of interrupted turns, summarisation, token estimates, middleware assembly, prompt text, configuration records, command lines and presentation: configuration or input and output, or easy members that would add little.
