# Verification model

This project models seven parts of the repository in Dafny and proves what they promise.

- **Pigeon mailbox** (`Mailbox*.dfy`; `pigeon/dispatcher.py` over the schema in `pigeon/db.py`): the two tables as
  values, every endpoint as one step, and a `Dispatcher` class whose methods are proved against those steps. `now` is
  an input of every call and need not grow from call to call, because it is read before the lock is taken.
- **Project document** (`TaskDag`, `Text`, `YamlScalar`, `Frontmatter`, `ProjectDocument`, `ProjectLines`,
  `ProjectLayout`, `ProjectNormal`, `ProjectMetadata`, `ProjectRoundTrip`, `ProjectFile`, `ProjectExample`;
  `devboule-mcp/src/project_file.rs`): Kahn's algorithm over the task list, and the frontmatter and state-block reader
  and writer. JSON is an abstract codec with parse after print the identity.
- **Live watch and polls of the city store** (`WatchProtocol.dfy`, `CityRequests.dfy`; `src/store/cityStore.ts`): each
  stretch of code between two awaits is one step, and each pending operation has a program counter.
- **Debouncer, file queue and repository discovery** (`Debounce`, `WatchedPaths`, `RepoDiscovery`;
  `oracle-core/src/watch.rs`): each lock section is one step of any number of threads; directories are finite trees.
- **K-means** (`ClusterModel.dfy`, `LloydStops.dfy`, `KMeans.dfy`; `oracle-core/src/cluster.rs`): `f32` is modelled as exact reals.
- **Code knowledge graph** (`CkgStore.dfy`; `oracle/store/ckg_store.py`): the tables are maps from key to row, replaced
  in place; the recursive query is a worklist.
- **Attention-budgeted batching** (`TextWindows.dfy`, `AttentionBatching.dfy`; `oracle-core/src/onnx_embedder.rs` with
  the helpers of `oracle-core/src/embed/mod.rs`): `usize` saturates at 2^64 - 1; encodings are lengths, cut at the token
  limit, and the vector of a row depends on its text alone.

`Results.dfy` holds what all of them share. The whole project is checked with `dafny verify dfyconfig.toml`.

Where the program reassigns variables, a class does the same, and its methods are tied to the step functions that the
theorems are about. The rows of those methods stand at the end of the table: they say that the steps are the program's,
and the rows before them say what follows.

## What turned out not to hold

In each case the model follows the code, one lemma gives a failing input, and another says exactly when the code keeps
the promise.

- **A failed start can clear a newer claim.** The catch block of `startWatchFor` (`src/store/cityStore.ts:502-512`)
  says it never stomps a newer claim, but it compares the path and not the epoch. If the same folder is claimed again
  while the failed start is in its clean-up, the newer claim is cleared, and the backend ends up watching a folder that
  the store does not claim (`WatchRuns.StaleCleanUpStompsClaim`). `WatchRuns.IdleConsistentIff` is the exact condition.
  A caller can check before each claim that it is not of this kind: then every idle state is consistent
  (`WatchRuns.CarefulRunsAreConsistent`), and after any claim of this kind the chain can become idle and inconsistent
  (`WatchRuns.ReclaimCanStomp`).
- **A project document does not always read back as it was written.** `ProjectRoundTrip.WriteReadsBackIff` is the exact
  condition for the whole document: every field fits one line and survives it, normalizing leaves id, title and status
  alone, no key looks like the closing dashes, and the new frontmatter does not contain the marker of the state block.
  The fields of a document that was read always fit their lines (`ProjectRoundTrip.ReadIsOneLined`); each other part can
  fail for them.
  - Quotes: `id`, `title`, `status` and `updated_at` are written as they are, and an unknown key without quotes when its
    value needs none, while the reader strips a pair of equal quotes (`YamlScalar.QuotesAreLost`). Which values survive:
    `YamlScalar.RawLineRoundTripIff`, `YamlScalar.UnknownLineRoundTripIff`.
  - Blanks: a title with two blanks in a row is collapsed (`ProjectNormal.BlanksCollapse`). A title that `clean_text` cuts
    behind a blank keeps the blank when it is read and loses it the next time (`ProjectNormal.CutTitleChanges`);
    metadata that was just read is settled in every other case (`ProjectNormal.ReadSettledIff`).
  - Dashes: a key that begins with three of them is taken for the end of the frontmatter
    (`ProjectRoundTrip.DashesAreLost`).
  - The marker: `clean_text` accepts the title that is the marker itself, and the file then has its first marker in the
    frontmatter (`ProjectRoundTrip.MarkerTitleIsLost`).
- **Rows that share a key.** `replace_for_files` agrees with a full rebuild exactly when it uncovers no key that a kept
  file also provides (`CkgTables.ReplaceAgreesIff`, `CkgTables.SharedKeyIsLost`), and updates of disjoint file sets
  commute exactly when they provide no common key (`CkgTables.ReplacesCommuteIff`).
- **Truncation can be a false alarm.** `discover_git_repos` raises the flag whenever it stops at the cap with room
  left, also when there was nothing more to find (`RepoDiscovery.TruncationFalseAlarm`). It tells the truth exactly when
  there are not as many repositories as the cap, or the last directory of all holds the last of them and lies at the
  depth limit (`RepoDiscovery.FlagIsTruthfulIff`). A cap of 0 acts as a cap of 1.
- **`next_f32` can return 1.0**, although its comment says [0.0, 1.0) (`SeededRandom.NextF32CanBeOne`); over exact
  reals it does so in exactly one state, 0x5E6C_FCE7 (`SeededRandom.NextF32IsOneIff`). That state is not shown to be
  reached from the seed that the program uses, and the seeding does not depend on the open end.
- **Saturation hides an overrun** from the check inside `forward_encodings` only when the budget is the largest word
  (`AttentionBudget.SaturationHidesOverrun`, `AttentionBudget.CostFitsIff`); the entry point is within the true budget
  for every budget.
- **The reserve of four tokens does not always keep a window from being truncated.** It does exactly when the limit
  leaves room for a byte, and for every single character of the text, beside the reserve
  (`WindowSize.NeverTruncatedIff`). With a limit of two to four the reserve no longer guarantees the promise, and with a
  limit of one a single byte with a single special token is cut (`WindowSize.TinyLimitTruncates`). From a limit of eight
  on no token of a UTF-8 text is lost (`WindowSize.NothingIsTruncated`), in no row of any pass of a whole call
  (`OnnxEmbedder.EmbedBatched`, `OnnxEmbedder.NoUtf8TokenIsLost`).

Two things that no comment promises otherwise, but that a reader may not expect:

- **A refresh can replace a newer city.** The guard on an agent refresh looks at requests, folder and poll, but not at
  the watcher's updates: one that arrives while the refresh is on the wire is overwritten by it
  (`CityRuns.RefreshReplacesWatcherUpdate`).
- **A single centroid never moves.** Asked for one cluster, the loop stops in its first round and the centroid stays
  the point it was seeded with, which need not be the mean (`KMeans.LoneSeedOffMean`). The program asks for at least
  two, and then a loop that stopped is settled whatever the data (`KMeans.KmeansFitPredict`); the exact condition for
  any number of seeds is `ClusterModel.StoppedIsSettledIff`.

## Model

| member | source | states |
|---|---|---|
| MailboxModel.NextUpTo | pigeon/dispatcher.py:236-241 | the picked ticket is pending for the agent and comes before every other such ticket, by priority and then by number; none is picked only if there is none |
| MailboxInvariant.StepKeepsInv | pigeon/dispatcher.py:88-323 | every endpoint keeps the table invariant: attempts bounded, a deadline on exactly the claimed rows among the live ones, a result on exactly the done rows, and one matching reply for each finished ticket |
| MailboxInvariant.SelectionExists | pigeon/dispatcher.py:151-157 | the sweep's SELECT always has an answer, which lists every overdue ticket once |
| MailboxInvariant.SweepEffect | pigeon/dispatcher.py:143-176 | a sweep releases each overdue ticket exactly once, touches no other row that existed, and adds exactly the replies of the tickets without a retry left, in whatever order the rows came |
| MailboxInvariant.SweepLeavesNoneExpired | pigeon/dispatcher.py:143-176 | after a sweep at `now` no claimed ticket is overdue at `now` |
| MailboxInvariant.SweepKeepsInv | pigeon/dispatcher.py:143-176 | the invariant survives a sweep |
| MailboxInvariant.ReleaseKeepsInv | pigeon/dispatcher.py:110-141 | requeueing and dead-lettering keep the invariant |
| MailboxInvariant.FinishKeepsInv | pigeon/dispatcher.py:88-108 | finishing a live ticket together with its reply keeps the invariant: one reply each, younger, the other way round |
| MailboxInvariant.StepLowersRank | pigeon/dispatcher.py:110-141 | no call removes a row, and one that changes a row moves it strictly down in rank |
| MailboxRuns.RunKeepsInv | pigeon/dispatcher.py:88-323 | the invariant holds over every run, with any clock readings |
| MailboxRuns.ReachableReplies | pigeon/dispatcher.py:88-141 | in every reachable state a ticket has a reply if and only if it is finished; then exactly one, younger, with sender and receiver swapped, the same project, and the outcome |
| MailboxRuns.StepConserves | pigeon/dispatcher.py:201-323 | one call changes the number of rows by its accepted send and its newly finished tickets |
| MailboxRuns.RunConserves | pigeon/dispatcher.py:201-323 | rows = accepted sends + finished tickets, over any run |
| MailboxRuns.RunKeepsLedger | pigeon/dispatcher.py:110-131 | a row records exactly how often its ticket was handed out |
| MailboxRuns.DeliveryIsBounded | pigeon/dispatcher.py:110-141 | no run hands a ticket out more than `max_attempts` + 1 times |
| MailboxRuns.ChangesAreBounded | pigeon/dispatcher.py:110-141 | the number of calls that change a ticket's row is bounded by its rank |
| MailboxRuns.FinishedIsFinal | pigeon/dispatcher.py:236-241 | done and failed are absorbing: the row, its result included, is never written again |
| MailboxHistory.SentIsDelivered | pigeon/dispatcher.py:201-246 | whatever runs in between, a poll that hands out a sent ticket hands out the payload that was sent, and to its receiver alone; sender, project and priority are kept too |
| MailboxHistory.EveryRowWasSent | pigeon/dispatcher.py:201-228 | no ticket but a reply exists without an accepted call that sent just it |
| MailboxHistory.StatusIsLastRegistered | pigeon/dispatcher.py:188-199 | an agent's status is the one it registered last, over any run |
| MailboxHistory.ImmediateIffLoaded | pigeon/dispatcher.py:88-228 | after any run a new message or reply is immediate if and only if its receiver last registered as loaded, and carries the time of the call |
| MailboxHistory.PollClaimsUntil | pigeon/dispatcher.py:230-246 | a ticket polled at `now` is overdue exactly from `now` plus the timeout on |
| MailboxHistory.NotHandedOutBeforeDeadline | pigeon/dispatcher.py:143-246 | over any run whose sweeps come before that time and in which its agent does not fail it, the ticket is not handed out again: it stays claimed until it is done |
| MailboxHistory.SweepTakesBackIff | pigeon/dispatcher.py:143-176 | a sweep takes a claimed ticket back if and only if its deadline has come: to the queue while retries are left, else it fails |
| MailboxQueue.QueueOfIsQueue | pigeon/dispatcher.py:350-354 | the listing holds exactly the pending tickets of the agent, each once, in order |
| MailboxQueue.PollTakesHead | pigeon/dispatcher.py:230-246 | a poll takes the head of the list that the queue endpoint would show and leaves the rest |
| MailboxQueue.PollsDrainQueue | pigeon/dispatcher.py:346-366 | consecutive polls return exactly that list, in that order, then nothing |
| MailboxQueue.RequeueKeepsPlace | pigeon/dispatcher.py:126-131 | a requeued ticket re-enters where its priority and number put it; the others keep their order |
| MailboxQueue.PollThenFailRestoresQueue | pigeon/dispatcher.py:126-131 | a claim that is given back restores the list as it was |
| Mailbox.Dispatcher.RegisterAgent | pigeon/dispatcher.py:188-199 | inserts or replaces the agent's row and nothing else |
| Mailbox.Dispatcher.SendMessage | pigeon/dispatcher.py:201-228 | adds one pending row under a new ticket; a priority outside 0..100 is rejected and changes nothing |
| Mailbox.Dispatcher.PollTask | pigeon/dispatcher.py:230-246 | returns the head of the queue with its payload: no pending ticket of the agent has a lower priority number, or the same and a lower ticket number; the ticket is overdue exactly from `now` plus the timeout on |
| Mailbox.Dispatcher.CreateReply | pigeon/dispatcher.py:88-108 | adds the reply row, delivered at once if the sender is loaded |
| Mailbox.Dispatcher.DoneTask | pigeon/dispatcher.py:248-287 | succeeds exactly for a claimed ticket and its receiver, or a caller that gives no name; returns its reply; else an error that leaves the tables unchanged |
| Mailbox.Dispatcher.Release | pigeon/dispatcher.py:110-141 | requeues while attempts are left, else dead-letters with a reply |
| Mailbox.Dispatcher.FailTask | pigeon/dispatcher.py:289-323 | succeeds exactly for a claimed ticket and its receiver; requeues it exactly while retries are left, else it fails with the given message |
| Mailbox.Dispatcher.ReclaimStuck | pigeon/dispatcher.py:143-176 | the two counts add up to the overdue tickets and split them by the retries they had left; none is overdue afterwards |
| Mailbox.Dispatcher.AgentQueue | pigeon/dispatcher.py:346-366 | lists the pending tickets in the order in which polls would hand them out |
| Digraph.OrderedIsAcyclic | devboule-mcp/src/project_file.rs:589-609 | an order in which everything comes after its dependencies rules out cycles |
| Digraph.StuckHasCycle | devboule-mcp/src/project_file.rs:603-607 | a set in which every node depends on another member contains a cycle |
| TaskDag.CountDecides | devboule-mcp/src/project_file.rs:589-609 | where the loop stops, it has resolved every task if and only if there is no cycle |
| TaskDag.AddDependents | devboule-mcp/src/project_file.rs:576-583 | a task is entered once under each of its dependencies |
| TaskDag.BuildDependents | devboule-mcp/src/project_file.rs:574-583 | maps each id to exactly the tasks that wait for it |
| TaskDag.InitialDegrees | devboule-mcp/src/project_file.rs:570-573 | every in-degree starts as the number of unresolved dependencies |
| TaskDag.CollectReady | devboule-mcp/src/project_file.rs:584-588 | the queue starts with exactly the tasks of in-degree 0, each once, in any order |
| TaskDag.Decrement | devboule-mcp/src/project_file.rs:592-600 | every child waits for one task less, none falls below 0, and exactly those that reach 0 become ready |
| TaskDag.ResolveNode | devboule-mcp/src/project_file.rs:590-601 | one turn keeps each in-degree equal to the number of unresolved dependencies and the queue equal to the ready tasks |
| TaskDag.DrainQueue | devboule-mcp/src/project_file.rs:589-602 | the loop ends, and its count decides whether there is a cycle |
| TaskDag.CountResolvable | devboule-mcp/src/project_file.rs:570-602 | the count reaches the number of tasks if and only if the graph is acyclic |
| TaskDag.CheckDeps | devboule-mcp/src/project_file.rs:548-569 | finds a defect if and only if some task depends on itself, on an unknown id or on an id twice, and names it |
| TaskDag.ValidateTaskDependencyDag | devboule-mcp/src/project_file.rs:547-609 | for distinct ids, accepts exactly the clean acyclic graphs and reports a cycle exactly for the clean cyclic ones |
| TaskDag.ValidateProjectTasks | devboule-mcp/src/project_file.rs:442-514 | accepts exactly the task lists with distinct ids, clean dependencies and no cycle, although the graph check is skipped when nothing has a dependency |
| YamlScalar.QuoteRoundTrip | devboule-mcp/src/project_file.rs:177-192 | unquoting undoes quoting for every string, in spite of two sequential replaces each way |
| YamlScalar.UnquoteFixed | devboule-mcp/src/project_file.rs:177-188 | the reader leaves a text alone if and only if it is not wrapped in equal quotes |
| YamlScalar.RawLineRoundTripIff | devboule-mcp/src/project_file.rs:372-375 | a value written as it is comes back if and only if it is trimmed and not quote-wrapped |
| YamlScalar.QuotedLineRoundTrip | devboule-mcp/src/project_file.rs:354-357 | a quoted value always comes back |
| YamlScalar.UnknownLineRoundTripIff | devboule-mcp/src/project_file.rs:377-388 | exactly which values of unknown keys come back |
| YamlScalar.QuotesAreLost | devboule-mcp/src/project_file.rs:372-388 | two families of values that do not come back |
| Frontmatter.GetAfterSet | devboule-mcp/src/project_file.rs:208-214 | after `set` the key looks up as the new value and every other key as before |
| Frontmatter.GetAfterRemove | devboule-mcp/src/project_file.rs:216-218 | after `remove` the key is gone and every other key is as before |
| Frontmatter.CanonicalSameToReaders | devboule-mcp/src/project_file.rs:220-252 | writing in canonical order changes no accessor's answer and no unknown key |
| Frontmatter.GetCanonical | devboule-mcp/src/project_file.rs:330-391 | what each key looks up after writing, aliases included |
| Frontmatter.CanonicalStable | devboule-mcp/src/project_file.rs:330-391 | fields in canonical order are written as they are |
| Frontmatter.FieldRoundTripIff | devboule-mcp/src/project_file.rs:342-388 | what a reader makes of a written field is that field if and only if its value is one that its line can carry |
| Frontmatter.LinesReadBackIff | devboule-mcp/src/project_file.rs:255-268 | the written lines read back as the same fields if and only if every value survives |
| Frontmatter.RenderedYamlReadsBackIff | devboule-mcp/src/project_file.rs:255-391 | the text between the dashed lines reads back as the fields that were written if and only if every value survives |
| ProjectRoundTrip.CloseOfJoin | devboule-mcp/src/project_file.rs:283-293 | the closing dashes found are the ones written after the last field |
| ProjectRoundTrip.SpanOfPrefix | devboule-mcp/src/project_file.rs:270-294 | where the frontmatter lies depends only on the text up to its end |
| ProjectLayout.SpanIff | devboule-mcp/src/project_file.rs:270-294 | the frontmatter of any file lies behind its first line, up to the first line break that is followed by dashes |
| ProjectLayout.CloseLineIs | devboule-mcp/src/project_file.rs:403-422 | the line that closes the block is the first one that is just a fence; the search fails only if there is none |
| ProjectRoundTrip.HeadRereads | devboule-mcp/src/project_file.rs:270-391 | the head of the written text is delimited where it ends, and parsing it normalizes what its lines carry |
| ProjectRoundTrip.HeadReadsBackIff | devboule-mcp/src/project_file.rs:270-391 | it parses to the fields that were written if and only if the metadata is settled and every value survives |
| ProjectRoundTrip.BlockReadsBack | devboule-mcp/src/project_file.rs:395-425 | the written state block is found, delimited and decoded to the state |
| ProjectRoundTrip.MarkerStaysFirst | devboule-mcp/src/project_file.rs:395-398 | the new block's marker is again the first one in the file |
| ProjectRoundTrip.WriteProduces | devboule-mcp/src/project_file.rs:656-676 | a write replaces the frontmatter and the block and keeps the text around them |
| ProjectRoundTrip.ReadIsEdited | devboule-mcp/src/project_file.rs:631-654 | a document that was read is split as the writer expects, whenever its block lies behind the frontmatter |
| ProjectMetadata.MetadataIsReadIff | devboule-mcp/src/project_file.rs:295-320 | reading fails exactly for a bad file name or id, an id other than a file on disk is named for, a title without a word, or another status than the five |
| ProjectMetadata.MetadataLookups | devboule-mcp/src/project_file.rs:311-327 | what every key looks up as after reading: a time stamp is kept under either key and made up only where there is none; other keys keep their values |
| ProjectMetadata.ReadAccessors | devboule-mcp/src/project_file.rs:220-252 | and so what the accessors of a read document answer |
| ProjectMetadata.CleanTextMeans | devboule-mcp/src/state/mod.rs:166-173 | a cleaned text has the words of the original, in order and with single blanks, cut at the limit; it is missing exactly when there is no word |
| ProjectMetadata.IdMeans | devboule-mcp/src/project_file.rs:23-41 | an id is the trimmed value in lower case, of 2 to 80 letters, digits and hyphens, not beginning with a hyphen |
| ProjectMetadata.StatusMeans | devboule-mcp/src/project_file.rs:71-79 | a status is one of five, whatever its case |
| ProjectNormal.CleanTextFixedIff | devboule-mcp/src/state/mod.rs:166-173 | a cleaned text is left alone by cleaning if and only if it does not end in a blank |
| ProjectNormal.CutBehindBlankIff | devboule-mcp/src/state/mod.rs:166-173 | it ends in one if and only if it was cut behind one |
| ProjectNormal.ReadSettledIff | devboule-mcp/src/project_file.rs:295-327 | metadata that was just read is left alone by normalizing if and only if its title does not end in a blank |
| ProjectNormal.RereadIsNormalIff | devboule-mcp/src/project_file.rs:295-327 | rereading and normalizing the written fields gives them back if and only if they are settled and survive: normalizing never makes up for a loss |
| ProjectNormal.BlanksCollapse | devboule-mcp/src/state/mod.rs:166-173 | a title that survives its line and is still changed by reading |
| ProjectNormal.CutTitleChanges | devboule-mcp/src/state/mod.rs:166-173 | titles that change when read a second time |
| ProjectRoundTrip.DashesAreLost | devboule-mcp/src/project_file.rs:283-293 | a key that begins with three dashes never comes back |
| ProjectRoundTrip.MarkerTitleIsLost | devboule-mcp/src/project_file.rs:395-398 | a clean title that puts the block's marker into the frontmatter |
| ProjectLines.ReadIsCarriable | devboule-mcp/src/project_file.rs:255-327 | every field of a document that was read has a key that a line can hold and a value without a line break |
| ProjectRoundTrip.ReadIsOneLined | devboule-mcp/src/project_file.rs:255-391 | so it fits its lines when the document is written again, canonical order and all |
| ProjectRoundTrip.WriteReadsBackIff | devboule-mcp/src/project_file.rs:631-678 | a write reads back as what was written if and only if the metadata is settled, every field fits one line and survives it, no key begins with dashes, and the new frontmatter has no marker |
| ProjectRoundTrip.WriteReadsBack | devboule-mcp/src/project_file.rs:631-678 | under that condition the state is the same, every accessor and unknown key sees the same metadata, the text around the block is the same, and a second write is identical |
| ProjectExample.ConditionsAreMet | devboule-mcp/src/project_file.rs:631-678 | a small file meets every condition of the round-trip theorem, for any new state |
| ProjectFile.Metadata.Set | devboule-mcp/src/project_file.rs:208-214 | replaces the first field of the key, or appends one |
| ProjectFile.Metadata.Remove | devboule-mcp/src/project_file.rs:216-218 | drops every field of the key and keeps the order of the others |
| ProjectFile.Metadata.Render | devboule-mcp/src/project_file.rs:330-391 | the buffer and the set of emitted keys write the canonical fields, known keys first, each key once |
| ProjectFile.ParseSimpleYaml | devboule-mcp/src/project_file.rs:255-268 | the loop yields the fields of the lines with a colon and a key, in order |
| ProjectFile.FindClose | devboule-mcp/src/project_file.rs:403-407 | the moving cursor stops at the first line that is just a fence |
| ProjectFile.FindStateBlock | devboule-mcp/src/project_file.rs:395-425 | the block that the round trip is about, with its five errors |
| ProjectFile.ReadProjectFile | devboule-mcp/src/project_file.rs:631-654 | reading is the function that the round-trip theorems are about |
| ProjectFile.WriteProjectFile | devboule-mcp/src/project_file.rs:656-678 | writing is too; on an error the file keeps its text |
| WatchRuns.NextKeepsInv | src/store/cityStore.ts:442-514 | every step keeps: only the newest operation is current, and listeners, owner and backend fit its program counter |
| WatchRuns.RunKeepsInv | src/store/cityStore.ts:271-278 | that holds over every interleaving of starts, stops and settling calls, failures included |
| WatchRuns.ClaimsAreTaken | src/store/cityStore.ts:446-456 | a start on another folder claims it whatever else is going on, in a new epoch, with its operation behind all others; so does a stop |
| WatchRuns.ClaimIsLastOrDropped | src/store/cityStore.ts:442-514 | over any run, failures included, no folder is claimed but that of the last start or stop |
| WatchRuns.WatchesLastClaim | src/store/cityStore.ts:442-514 | as long as no call fails, that folder is claimed, and whenever the chain is idle the backend watches just it, with live listeners |
| WatchRuns.IdleConsistentIff | src/store/cityStore.ts:442-514 | whenever the chain is idle, the backend watches exactly the claimed folder with live listeners of the current epoch, if and only if it did not happen since the last claim that a stale clean-up cleared that claim and its own start succeeded |
| WatchRuns.CarefulRunsAreConsistent | src/store/cityStore.ts:502-512 | it does in every run in which no folder is claimed while its own failed start is cleaning up |
| WatchRuns.ReclaimCanStomp | src/store/cityStore.ts:502-512 | after any claim of that kind the chain can become idle and inconsistent |
| WatchRuns.StaleCleanUpStompsClaim | src/store/cityStore.ts:502-512 | a run that ends idle with the backend watching a folder that the store does not claim |
| WatchRuns.ChainDrains | src/store/cityStore.ts:271-278 | every step of the chain brings it closer to idle; only claims and stops add work |
| CityRuns.StepKeepsInv | src/store/cityStore.ts:874-973 | every step keeps: loading means the latest request is unresolved, one refresh at most, one loop per epoch |
| CityRuns.ReachableStatesFit | src/store/cityStore.ts:874-973 | in every reachable state `loading` holds exactly while the latest request is unresolved, at most one refresh is in flight, and the current epoch has one loop if the poll runs and none if not |
| CityRuns.RequestsAreNumbered | src/store/cityStore.ts:712-816 | requests are numbered in the order of issue, and the numbers of applied loads only grow |
| CityRuns.OnlyLatestIsApplied | src/store/cityStore.ts:739-790 | after any run, a response changes what is shown or `loading` only if it answers the request issued last, and a successful answer to that one is applied |
| CityRuns.ResponsesInAnyOrder | src/store/cityStore.ts:739-790 | after any number of responses in any order, what is shown is decided by the answer to the latest request alone, and `loading` has ended exactly if that answer is among them |
| CityRuns.OrderDoesNotMatter | src/store/cityStore.ts:739-790 | the same responses in two orders lead to the same city |
| CityRuns.SameCountersMeansQuiet | src/store/cityStore.ts:897-929 | equal counters mean that nothing relevant happened in between |
| CityRuns.RefreshIsAppliedIff | src/store/cityStore.ts:881-952 | a refresh that arrives after any run is shown if and only if it brings a city and the run was quiet: no stop or restart, no request, no change of folder, no applied load; else what is shown stays |
| CityRuns.AppliedRefreshIsFresh | src/store/cityStore.ts:912-932 | a refresh that changes what is shown saw no stop or restart, no request, no change of folder and no applied load since it was sent |
| CityRuns.RefreshReplacesWatcherUpdate | src/store/cityStore.ts:912-932 | but it may have seen a watcher update, which it replaces |
| CityRuns.CallsSend | src/store/cityStore.ts:712-816 | which calls send a request, for what, and which of them wait for a running load |
| CityRuns.SelectsLastChosen | src/store/cityStore.ts:739-759 | over any run the selected folder is the one that was chosen last |
| CityRuns.LastFolderIsShown | src/store/cityStore.ts:739-790 | a folder is mapped in whatever state; if nothing else is asked for before its scan answers, that city is shown under that folder |
| CityRuns.PollRunsIff | src/store/cityStore.ts:874-973 | over any run, ticks and refreshes included, the poll is on exactly from a start to the next stop |
| CityRuns.TickSendsIff | src/store/cityStore.ts:881-915 | a tick sends a refresh if and only if the page is visible, a city is shown, nothing loads and no refresh is on the wire, of whatever epoch; else the next tick is armed |
| WatchedPaths.BatchExact | oracle-core/src/watch.rs:449-464 | a batch lists exactly the watched paths of the drained queue, strictly sorted |
| WatchedPaths.StrictListingUnique | oracle-core/src/watch.rs:452-464 | and it is the only such list |
| WatchedPaths.WatchedIff | oracle-core/src/watch.rs:456-462 | a path is watched if and only if its file name is a stem, a dot and one of the ten extensions |
| DebounceRuns.NextKeepsInv | oracle-core/src/watch.rs:99-136 | every step of every thread keeps generations, times, spacing, pending wake-ups and conservation |
| DebounceRuns.EveryPushAccounted | oracle-core/src/watch.rs:449-468 | a path, each time it was pushed, is at its place in the queue or in the drain that took it; and if it is watched, in that drain's own batch |
| DebounceRuns.NothingIsLost | oracle-core/src/watch.rs:439-470 | until a cancel, whoever is to drain a non-empty queue is still pending; every push is accounted for, in order; and the batches are exactly those of the drains, in order, each sorted, duplicate-free and non-empty |
| DebounceRuns.QueueCanDrain | oracle-core/src/watch.rs:99-123 | from every such state the threads and timers that are there can empty the queue by themselves, without another push |
| DebounceRuns.FiresAreSpaced | oracle-core/src/watch.rs:99-123 | authorised generations grow strictly, so each fires once, and two of them are at least the duration apart |
| DebounceRuns.QuietWindow | oracle-core/src/watch.rs:115-121 | a callback is authorised only after a window of the duration without a trigger or a cancel |
| RepoDiscovery.DirsExact | oracle-core/src/watch.rs:194-233 | the directories looked at are exactly those within the depth limit that readable directories lead to by names other than `.git` and the five heavy ones |
| RepoDiscovery.ReposExact | oracle-core/src/watch.rs:181-204 | without the cap, the repositories are exactly the directories that such a path leads to and from which one more step leads to a `.git` directory |
| RepoDiscovery.ReachesIff | oracle-core/src/watch.rs:218-232 | the search takes every path but those with such a name on them |
| RepoDiscovery.LevelOrderByDepth | oracle-core/src/watch.rs:191-232 | nearer directories come first |
| RepoDiscovery.PushChildren | oracle-core/src/watch.rs:218-232 | the inner loop appends exactly the children that are worth a visit, in order |
| RepoDiscovery.DiscoverGitRepos | oracle-core/src/watch.rs:186-236 | the search ends and returns the first repositories, up to the cap, in level order; the flag is raised exactly when it stopped at the cap with room left |
| RepoDiscovery.NotTruncatedIsComplete | oracle-core/src/watch.rs:204-212 | without the flag nothing was missed |
| RepoDiscovery.FlagIsTruthfulIff | oracle-core/src/watch.rs:204-212 | the flag tells whether repositories were missed if and only if there are not as many as the cap, or the last directory of all holds the last of them and lies at the depth limit |
| RepoDiscovery.TruncationFalseAlarm | oracle-core/src/watch.rs:204-212 | the flag can be raised although nothing was missed |
| ClusterModel.Nearest | oracle-core/src/cluster.rs:322-331 | the first of the nearest centroids |
| ClusterModel.NearestLabelsAreBest | oracle-core/src/cluster.rs:320-336 | no labelling costs less, for the given centroids |
| ClusterModel.MeanIsLeast | oracle-core/src/cluster.rs:355-362 | the mean minimises a coordinate's share of the cost |
| ClusterModel.MoveToMean | oracle-core/src/cluster.rs:358-360 | moving one coordinate of a centroid to the mean, with the others half updated, never raises the cost |
| ClusterModel.UpdateLowers | oracle-core/src/cluster.rs:342-362 | the whole mean update, empty clusters keeping their centroid, never raises the cost |
| ClusterModel.MeansAreBest | oracle-core/src/cluster.rs:342-362 | no other centroids cost less, for the given labels |
| ClusterModel.RoundsLower | oracle-core/src/cluster.rs:316-363 | the cost never rises over any number of rounds, and after one round it is at most what the seeds alone give |
| ClusterModel.StopsForGood | oracle-core/src/cluster.rs:338-340 | a round that changes nothing is followed only by such rounds, so leaving the loop early loses nothing |
| ClusterModel.FirstRoundMovesIff | oracle-core/src/cluster.rs:314-340 | the first round changes a label if and only if there is more than one seed |
| ClusterModel.SettledIsAtMeans | oracle-core/src/cluster.rs:342-362 | centroids that cannot be improved are at the means of their points |
| ClusterModel.EqualPointsAtMean | oracle-core/src/cluster.rs:314-340 | a lone seed is at the mean when all points are the same |
| ClusterModel.StoppedIsSettledIff | oracle-core/src/cluster.rs:316-363 | where the loop stopped, every point has a nearest centroid and neither better labels nor better centroids exist, if and only if there was more than one seed or the only seed is the mean |
| LloydStops.TieMovesDown | oracle-core/src/cluster.rs:320-336 | assigning anew costs less, or the same and then no label grows |
| LloydStops.RoundDescends | oracle-core/src/cluster.rs:316-363 | after the first move, a round that changes something lowers the best cost of the labelling, or keeps it and lowers the sum of the labels |
| LloydStops.LoopStops | oracle-core/src/cluster.rs:316-340 | without the cap of 300 the loop would always end: from every start some round changes nothing |
| SeededRandom.XorShiftInjective | oracle-core/src/cluster.rs:221-226 | the generator permutes its states |
| SeededRandom.XorShiftNotZero | oracle-core/src/cluster.rs:221-226 | it never reaches the stuck state 0 |
| SeededRandom.Rng.constructor | oracle-core/src/cluster.rs:215-219 | a zero seed becomes 1 |
| SeededRandom.Rng.NextU32 | oracle-core/src/cluster.rs:221-226 | the three shifts in order, never 0 |
| SeededRandom.Rng.NextF32 | oracle-core/src/cluster.rs:229-231 | in (0, 1], and 1.0 exactly when the state before the call is 0x5E6C_FCE7 |
| SeededRandom.NextF32CanBeOne | oracle-core/src/cluster.rs:228-231 | a state after which it is 1.0 |
| SeededRandom.NextF32IsOneIff | oracle-core/src/cluster.rs:228-231 | and it is the only such state |
| KMeansSeeding.Choose | oracle-core/src/cluster.rs:262-271 | the first index at which the running total reaches the threshold, 0 when it never does |
| KMeansSeeding.Spin | oracle-core/src/cluster.rs:262-272 | a point is drawn with its squared distance as weight, so never one that is a centroid already |
| KMeansSeeding.PushUnchosen | oracle-core/src/cluster.rs:250-256 | pushes the first point that is no centroid yet, and nothing when there is none |
| KMeansSeeding.TotalZeroIff | oracle-core/src/cluster.rs:248-249 | the total is 0 if and only if every point is a centroid already |
| KMeansSeeding.Measure | oracle-core/src/cluster.rs:274-280 | the distances stay those to the nearest centroid |
| KMeansSeeding.KmeansPpInit | oracle-core/src/cluster.rs:236-284 | the seeds are distinct points of the data, `k` of them or else all there are; the first is drawn evenly, each later one at the point where the running total of squared distances to the nearest seed before it reaches the next draw's share of the whole |
| KMeansSeeding.OneStop | oracle-core/src/cluster.rs:262-271 | a draw picks one point: the shares of the total do not overlap |
| KMeansSeeding.SeedsAreUnique | oracle-core/src/cluster.rs:236-284 | data, `k` and the generator's state determine the seeds |
| KMeansSeeding.SeedCount | oracle-core/src/cluster.rs:236-284 | their number is the smaller of `k` and the number of distinct points |
| KMeans.Assign | oracle-core/src/cluster.rs:318-336 | every point gets its nearest centroid, and `changed` says whether some label differs |
| KMeans.Tally | oracle-core/src/cluster.rs:342-354 | the in-place sums and counts per cluster |
| KMeans.UpdateCentroids | oracle-core/src/cluster.rs:342-362 | the in-place update is the mean update, also when fewer centroids than `k` exist |
| KMeans.Lloyd | oracle-core/src/cluster.rs:316-363 | the loop with its early exit gives what 300 rounds give |
| KMeans.LoneSeedOffMean | oracle-core/src/cluster.rs:306-340 | two points over which one cluster is not settled |
| KMeans.KmeansFitPredict | oracle-core/src/cluster.rs:306-363 | the seeds are the ones drawn from the given seed; labels index existing centroids, the cost is at most what the seeds alone give, and for two clusters or more a loop that stopped is settled; one cluster keeps its seed |
| CkgTables.ReplaceAgreesIff | oracle/store/ckg_store.py:73-88 | the incremental update equals a rebuild of the updated union if and only if it uncovers no key of a kept file |
| CkgTables.ReplaceAgrees | oracle/store/ckg_store.py:73-88 | it does whenever every key belongs to one file |
| CkgTables.UpdatesAgree | oracle/store/ckg_store.py:73-88 | and so does any run of such updates |
| CkgTables.SharedKeyIsLost | oracle/store/ckg_store.py:58-81 | a key shared by two files is lost when one of them is updated |
| CkgTables.ReplacesCommuteIff | oracle/store/ckg_store.py:73-81 | updates of disjoint file sets commute if and only if they provide no common key |
| CkgWalks.NeighborhoodIsWalks | oracle/store/ckg_store.py:98-113 | a pair is in the neighbourhood if and only if a walk of that many edges of the kind, at most `k`, leads there from the start, and it is not the start |
| CkgWalks.WalkIff | oracle/store/ckg_store.py:105-108 | a walk is made of edges of the graph, of the kind if one is asked for, each starting where the one before it ends |
| CkgWalks.LeastDepthIsDistance | oracle/store/ckg_store.py:98-113 | the least depth listed for a node is its shortest distance |
| CkgWalks.Follow | oracle/store/ckg_store.py:105-108 | one row's recursive step adds exactly walks, and each pair once |
| CkgStore.Store.Insert | oracle/store/ckg_store.py:58-71 | of rows with the same key the last one stays |
| CkgStore.Store.ReplaceForFiles | oracle/store/ckg_store.py:73-81 | drops the rows of the files from both tables and inserts the new ones |
| CkgStore.Store.ReplaceAll | oracle/store/ckg_store.py:83-88 | both tables hold just the new rows |
| CkgStore.Store.GetNeighborhood | oracle/store/ckg_store.py:98-113 | the query ends on every graph and lists exactly the pairs of the neighbourhood, each once |
| TextWindows.FloorCharBoundary | oracle-core/src/embed/mod.rs:203-212 | the nearest character boundary at or below the index |
| TextWindows.NextCharBoundary | oracle-core/src/embed/mod.rs:215-224 | the first character boundary after the index, or the end |
| TextWindows.PreferSoftCut | oracle-core/src/embed/mod.rs:228-246 | cuts after the last separator in the range if and only if there is one |
| TextWindows.WindowEnd | oracle-core/src/embed/mod.rs:270-287 | the last boundary within the size, or one character if that is too long; before the end of the text, the last separator in the last 15% of that span wins |
| TextWindows.NextStart | oracle-core/src/embed/mod.rs:301-312 | the last boundary that leaves the overlap, or the next character if that would not move on |
| TextWindows.WindowText | oracle-core/src/embed/mod.rs:255-315 | the windows cover the text without gaps, move on and never cut a character; each ends and the next one starts exactly where the size, the separators and the overlap say |
| TextWindows.WindowsAreUnique | oracle-core/src/embed/mod.rs:255-315 | text, size and overlap determine the windows |
| TextWindows.SmallTextIsOneWindow | oracle-core/src/embed/mod.rs:270-301 | a text that fits the size is one window |
| TextWindows.WindowsAreLong | oracle-core/src/embed/mod.rs:270-287 | every window but the last takes more than 85% of a span that one more character would take past the size |
| TextWindows.WindowsOverlap | oracle-core/src/embed/mod.rs:301-312 | consecutive windows overlap by at least what was asked for, unless the next one moves on by a single character; and no later start would do so |
| TextWindows.ReconstructFromWindows | oracle-core/src/embed/mod.rs:320-340 | the loop over the windows is the fold that the next row is about |
| TextWindows.ReconstructsText | oracle-core/src/embed/mod.rs:317-340 | windows that cover a text give it back exactly, however much they overlap |
| WindowSize.EffectiveWindowBytes | oracle-core/src/embed/mod.rs:95-108 | a request that fits is honoured, a larger one is cut to the limit less the reserve; so the window leaves room for the special tokens whenever the limit allows a byte beside them |
| WindowSize.NeverTruncatedIff | oracle-core/src/embed/mod.rs:43-69 | no window of a text can be truncated if and only if the limit leaves room for a byte, and for every single character of the text, beside the special tokens |
| WindowSize.NothingIsTruncated | oracle-core/src/embed/mod.rs:43-69 | from a limit of eight tokens on, no token of a UTF-8 text is lost |
| WindowSize.TinyLimitTruncates | oracle-core/src/embed/mod.rs:95-108 | with a limit of four or less a tokenizer that uses its whole reserve makes too many tokens of a single byte, and with a limit of one so does one that adds a single special token |
| AttentionBudget.CostFitsIff | oracle-core/src/embed/mod.rs:155-158 | the saturating check passes if and only if the true cost fits or the budget is the largest word |
| AttentionBudget.SaturationHidesOverrun | oracle-core/src/embed/mod.rs:155-158 | two rows of 2^32 tokens pass the check of the largest budget, which they exceed |
| AttentionBudget.MaxBatchIff | oracle-core/src/embed/mod.rs:160-171 | for two rows or more, a batch is at most the maximum if and only if rows x length^2 fits the budget |
| AttentionBudget.SplitShrinks | oracle-core/src/onnx_embedder.rs:251-263 | a batch that is too costly is larger than its parts, so splitting ends |
| AttentionBudget.AttentionSubBatchSizes | oracle-core/src/embed/mod.rs:174-187 | the parts add up, none is empty or too large, and all but the last are full |
| AttentionBudget.GroupEnd | oracle-core/src/embed/mod.rs:449-469 | a group fits the budget unless it is one window, and the next window would not |
| AttentionBudget.PackWindowsForAttention | oracle-core/src/embed/mod.rs:441-473 | the groups follow one another, cover all windows, and are greedy |
| AttentionBudget.PackedIsUnique | oracle-core/src/embed/mod.rs:441-473 | lengths and budget determine the groups |
| OnnxEmbedder.EncodeBatch | oracle-core/src/onnx_embedder.rs:212-222 | rows are padded to the longest one and hold all tokens that truncation leaves; fails only when something may go wrong |
| OnnxEmbedder.RunPass | oracle-core/src/onnx_embedder.rs:266-335 | one pass over all rows; then one vector pushed for each, in order, or none when the session fails |
| OnnxEmbedder.ForwardEncodings | oracle-core/src/onnx_embedder.rs:240-265 | every row goes through exactly one pass, in order; a batch that fits is one pass; below the largest budget every pass of two rows or more fits |
| OnnxEmbedder.EmbedTokenizedAttentionSafe | oracle-core/src/onnx_embedder.rs:198-238 | pushes one vector for each text in input order, a first part of them when cancelled or failing; the passes have as many rows as the padded length allows, each padded to its own longest row; every pass of two rows or more has rows x length^2 within the budget, for all lengths and budgets |
| OnnxEmbedder.EmbedInChunks | oracle-core/src/onnx_embedder.rs:230-237 | tokenized again in chunks, each chunk is one pass: it is never divided a second time |
| OnnxEmbedder.EmbedGroup | oracle-core/src/onnx_embedder.rs:171-188 | the same for a group of windows, batch by batch, at most `batch_size` rows a pass; stopped early, a first part of the windows was served |
| OnnxEmbedder.ExpandTextsToWindows | oracle-core/src/embed/mod.rs:392-412 | every text contributes the windows that cover it, and an empty text one empty window |
| OnnxEmbedder.PiecesAreUnique | oracle-core/src/embed/mod.rs:392-412 | these windows are determined by the text, the size and the overlap |
| OnnxEmbedder.ShortTextIsOnePiece | oracle-core/src/embed/mod.rs:392-412 | a text within the size is embedded in one piece |
| OnnxEmbedder.PoolWindowVectors | oracle-core/src/embed/mod.rs:415-432 | one vector for each text, pooled from the vectors of its own windows |
| OnnxEmbedder.EmbedBatched | oracle-core/src/onnx_embedder.rs:134-191 | fails only on a cancellation or a failing tokenizer or session; otherwise one vector for each text, in order; every window went through exactly one pass, group by group and batch by batch; the budget holds whether or not the call succeeds, and so does that no row loses a token if the characters of the texts fit the limit |
| OnnxEmbedder.NoTokenIsLost | oracle-core/src/onnx_embedder.rs:120-126 | truncation never fires in any pass if every character fits beside the special tokens, whatever window size is asked for |
| OnnxEmbedder.NoUtf8TokenIsLost | oracle-core/src/embed/mod.rs:43-69 | so from a limit of eight tokens on no token of a UTF-8 text is lost in a whole call |
| OnnxEmbedder.PiecesHoldText | oracle-core/src/onnx_embedder.rs:120-126 | the windows of a text hold all of it: no text is dropped |
| WatchStore.Store.StartWatchFor | src/store/cityStore.ts:446-456 | claims at once, bumps the epoch and enqueues; a claim on the same folder does nothing |
| WatchStore.Store.StopWatch | src/store/cityStore.ts:846-859 | drops the claim at once, bumps the epoch and enqueues a teardown |
| WatchStore.Store.DropListeners | src/store/cityStore.ts:395-405 | no listener is left and none is owned |
| WatchStore.Store.DropListenersIfOwned | src/store/cityStore.ts:280-292 | drops the listeners exactly if this epoch owns them |
| WatchStore.Store.BeginNext | src/store/cityStore.ts:456-462 | the next operation of the chain runs; a superseded start ends at once |
| WatchStore.Store.AfterSubscribe | src/store/cityStore.ts:465-473 | the listeners are tagged, and dropped again when the start is superseded |
| WatchStore.Store.AfterStartWatch | src/store/cityStore.ts:476-501 | a superseded start stops its watcher, or points the backend at the newer folder |
| WatchStore.Store.Catch | src/store/cityStore.ts:502-509 | a failed start tears down only while it is current |
| WatchStore.Store.Continue | src/store/cityStore.ts:456-513 | every stretch between two awaits is the step that the run theorems are about |
| CityStore.Store.LoadFolder | src/store/cityStore.ts:739-759 | issues a new request and selects the folder at once; an empty path does nothing |
| CityStore.Store.Load | src/store/cityStore.ts:712-724 | does nothing while loading; maps the restored folder, or the fixture in a browser |
| CityStore.Store.Refresh | src/store/cityStore.ts:792-803 | the same, also while loading when forced |
| CityStore.Store.ReclassifyFeatures | src/store/cityStore.ts:1069-1081 | issues a request in the desktop app unless one is loading |
| CityStore.Store.OnResponse | src/store/cityStore.ts:760-790 | a response is applied, or ends the loading, only for the latest request |
| CityStore.Store.StartAgentPoll | src/store/cityStore.ts:874-880 | a new epoch with one timer, unless one is armed already |
| CityStore.Store.StopAgentPoll | src/store/cityStore.ts:956-973 | a new epoch and no timer; the in-flight flag is left alone |
| CityStore.Store.OnTimer | src/store/cityStore.ts:881-915 | a tick sends at most one refresh and captures epoch, folder and request number, or re-arms |
| CityStore.Store.OnRefreshed | src/store/cityStore.ts:916-952 | applies the city only if nothing it captured has changed, always releases the flag, and re-arms only while current |
| FsWatcher.Watcher.PushBack | oracle-core/src/watch.rs:526-536 | enqueues one path |
| FsWatcher.Watcher.BumpGeneration | oracle-core/src/watch.rs:105-109 | the first lock section of `trigger`: a new generation |
| FsWatcher.Watcher.SpawnTimer | oracle-core/src/watch.rs:112-122 | the timer of that generation starts to sleep |
| FsWatcher.Watcher.TimerWakes | oracle-core/src/watch.rs:116-118 | a timer is authorised exactly if its generation is still current |
| FsWatcher.Watcher.Callback | oracle-core/src/watch.rs:448-468 | drains the whole queue and delivers its batch unless that is empty |
| FsWatcher.Watcher.CancelTimers | oracle-core/src/watch.rs:125-132 | invalidates every pending timer |

## Left out

- Pigeon's HTTP layer: authentication, payload size caps, connection handling, write-ahead logging and failed rollbacks. A rejected call is modelled by the unchanged tables.
- `_migrate_tasks` and rows written before the current schema: the schema is taken as freshly created.
- The status and health endpoints of Pigeon, which only read one row.
- Mailbox.Dispatcher.ReclaimStuck: the order of the rows that SQL leaves open is an argument, and the results hold for every order.
- Mailbox.Dispatcher.SendMessage: JSON payloads and results are opaque strings.
- Project files on disk: locks, crash-safe writes, path confinement, hashes and modification times. The clock is an input.
- TaskDag.ValidateProjectTasks: only ids and dependencies; the other field checks of a task and of the notes, and the normalisation of ids, are single-branch checks.
- ProjectRoundTrip.WriteReadsBackIff: parsing and validating the JSON is a codec for which parsing a printed state gives it back; offsets count characters, where the program counts bytes next to ASCII ones. The clock's text is assumed to have no line break.
- WatchRuns.IdleConsistentIff: assumes that `polis_stop_watch` takes effect; the program ignores its failure.
- WatchModel and CityModel are separate: that a successful folder load starts the watch, and that a semantic update forces a refresh, are calls that may come at any time in either.
- CityStore.Store.LoadFolder: the path is given trimmed; local storage, the filter and error texts are not modelled.
- CityRuns.ReachableStatesFit: without `resetToNewEra`, which sets `loading` after an await.
- CityStore.Store.OnRefreshed: dropping an update whose 32-bit signature equals the last one is not modelled; a city that is dropped for being identical shows the same.
- DebounceRuns.NothingIsLost: the 64-bit generation does not wrap here; joining threads, arming OS watches and the git watcher, which triggers the same debouncer without a queue, are left out.
- RepoDiscovery.DiscoverGitRepos: a directory is listed once and does not change during the search; symbolic links count as entries that are no directory.
- SeededRandom.NextF32CanBeOne: not shown to be reached from the program's seed.
- KMeans.KmeansFitPredict: without the scores, which need square roots. Floating-point rounding is left out, and with it the fallback branch of the seeding, which over exact reals never finds a point to push. It also returns the centroids and seeds, which the program keeps to itself.
- `kmeans_k`, which needs a square root; that it is at least 2 is used in the text above. The epoch hash and the writes to the stores.
- The other queries of the graph store, which are single SELECT statements.
- TextWindows.WindowText: `start + window_bytes` does not wrap around in the model.
- OnnxEmbedder.EncodeBatch: the tokenizer is a function from a text to its number of tokens; which tokens they are is not modelled.
- OnnxEmbedder.EmbedBatched: mean pooling, the tensors and the session are abstract; configuration values are arguments.
- OnnxEmbedder.ForwardEncodings: the list that the program pushes into is passed in and returned; the log of passes is ghost.
