# A model of the sandbox agent's and the command line's stateful cores

This project models, in Dafny 4.11, the parts of AerolVM that are hardest to get
right: inside the sandbox agent `toolboxd`, the Daytona session command runner and
its log stream, the PID-1 reaper, the terminal table, the freeze/thaw machine, the
file moves, the buffered exec and the file watches; in the `aerolvm` command, the
audit spool, the access review, the SSO renewal and the exec quoting. Concurrent
code is a state machine whose steps are lock sections and channel operations, and
every claim about it is about every run. Code that updates state in place is also
written as a class or a method, proved equal to the functions the state machine
steps by. `dafny verify dfyconfig.toml` checks it all.

The modules, by what they model:

- `ByteStrings`, `SessionMarkers`, `CommandRunner`, `CommandRuns`, `SessionCommand`:
  one command in a Daytona session, cut out of two byte streams that arrive in
  arbitrary chunks. The markers are arbitrary byte strings (non-empty, the end
  marker not beginning with a newline); `MarkersFor` gives the real ones.
- `Utf8`, `LogWindow`, `CommandLogs`: the log windows a poller reads while the
  command runs and after it, over RFC 3629 sections 3 and 4.
- `CommandStream`, `CommandFrames`, `CommandFollow`: live subscribers of one
  command's output, and what a client at the other end of the wire reads.
- `ChildTable`: exec children against the PID-1 reaper, with pids taken again.
- `ExecBuffered`, `WatchBatches`, `WatchBudgets`, `FreezeThaw`, `Terminals`.
- `FileTree`, `Disks`, `CopySteps`, `MoveStates`, `MovePath`: moving and copying when
  any call may fail. A disk records every state it goes through and how many calls
  failed of themselves, so that safety is about every moment and exactness about the
  runs in which none failed.
- `Spool`, `ParallelWalk`: the two concurrent readers of audit evidence.
- `AuditRecords`, `Tallies`, `ReviewPrincipals`, `ReviewTables`, `Refusals`,
  `AccessReview`: what the access review counts, folded per node and merged;
  `ReviewMeaning`, `RefusalMeaning`: what its rows say, in terms of the records.
- `Sso`, `SsoFaults`, `SsoSession`: renewing one login from many processes.
- `ShellQuote`: the exec command line, read back by POSIX.1-2017 XCU sections
  2.2.1, 2.2.2 and 2.3.
- `Options`, `Collections`: shared vocabulary.

Where a promise turned out not to hold everywhere, the code was kept as it is and
the exact limit is proved:

- The newline after the start marker survives exactly when a read ended at the
  marker (`RunIsOneShot`, `KeepsNewline`).
- Polled windows concatenate to the whole text if and only if the limit is 0 or no
  character is wider than it (`PollerReadsEverything`); a poller gets there with no
  more final reads than there are bytes, whatever the limit (`PollingARun`).
- A follower's client makes out the frames it was sent if and only if no marker begins
  within a chunk, be it to end in the next frame's head (`SplitExactly`). A chunk that
  holds a marker or ends in a marker's byte is misread before some other, and no other
  chunk is (`UnmarkedExactly`).
- Waiting by pid number is safe in every run in which no pid is taken again while a
  waiter for it lives, and any run that takes one again for the first time can go on to
  settle that waiter with a status that is not its child's
  (`NumbersAreSafeWithoutReuse`, `ReuseBreaksNumbers`). By pidfd it is always safe.
- An exec's background job is refused if and only if the readers left draining and the
  refused jobs yet to take their add back fill the limit (`RefusedExactly`).
- The name on a merged caller row is the one-pass name if and only if the first and
  the last node to name the caller at the latest instant name them alike
  (`NamesAgreeExactly`, and `TableNamesAgreeExactly` of the review's own table).
- A refresh token is never sent twice by processes that die anywhere and take over
  abandoned locks, as long as every step is benign where it is taken
  (`NoTokenIsSentTwice`). After any such run a step that is not benign can be followed by
  benign ones up to the sending of a spent token (`FaultReuses`): a failed load, a failed
  save, an answer lost after the exchange, and taking over a lock whose holder lives or
  died between its exchange and its save. When the saved login holds no refresh token
  all of these are benign. That nobody replaces the saved login meanwhile is a hypothesis:
  for a login signed out of while two processes use it, `SignedOutReuses` shows what
  happens without it.
- Moving a tree is safe at every moment, whichever calls fail, unless the request is
  of one of three kinds a caller can see beforehand: replacing a leaf by itself through
  two mounts, which loses it; asking for missing folders inside the folder being moved,
  which changes it before the move is refused; and a destination inside the folder, on
  another mount, whose own folder could not be resolved, which copies the folder into
  itself until a path is too long. When no call fails of itself each of them does break
  the promise (`Move`; `UnsoundOrders` has one request of each kind), and a move then
  succeeds if and only if it can be done (`Doable`).
- A frozen filesystem has its safety timer if and only if neither a thaw_fs nor a safety
  thaw was refused since the freeze (`FrozenMeansGuarded`, `FailedThawLeavesNoNet`); its
  delay is the clamped request unless the product to nanoseconds wraps, and then by what
  is left of it (`ThawDelayExactly`).
- A failed renewal at the zero time is forgotten (`ZeroTimeIsForgotten`).
- The exec command line reads back as the words given if and only if they are not a
  single word that needs quotes (`CommandLineReadsBack`).

## Model

| member | source | states |
|---|---|---|
| ByteStrings.LongestEndMarkerPrefixSuffix | cmd/toolboxd/daytona_process.go:1033-1041 | the scan finds how much of the text's end could be the start of the pattern, the most of it |
| ByteStrings.HoldBackIsLongest | cmd/toolboxd/daytona_process.go:1033-1041 | the held-back length is a proper pattern prefix at the end of the text and no longer one is |
| ByteStrings.HoldBackCoversOccurrence | cmd/toolboxd/daytona_process.go:938-948 | an end marker completed by later bytes never begins before the held-back part, so no marker byte was already sent |
| ByteStrings.SafeLengthGrows | cmd/toolboxd/daytona_process.go:944-948 | the sendable length never shrinks as text arrives, so the live counter never runs ahead |
| ByteStrings.IndexAfterDrop | cmd/toolboxd/daytona_process.go:891-899 | dropping all but a marker-sized tail before the start marker does not move its first occurrence |
| SessionMarkers.MarkersDoNotOverlap | cmd/toolboxd/daytona_process.go:804-825 | for every command id the real markers are usable and the end pattern and the sentinel cannot overlap themselves |
| SessionMarkers.ExitCodeOfDecimal | cmd/toolboxd/daytona_process.go:919-927 | the status the shell prints in decimal is the exit code read back |
| SessionMarkers.ParseSigned | cmd/toolboxd/daytona_process.go:923-927 | digits, signed or not, are their value exactly when it fits 32 bits |
| SessionMarkers.ParsedIsNumber | cmd/toolboxd/daytona_process.go:923-927 | nothing but digits after at most one sign is a number |
| SessionMarkers.ExitCodeExactly | cmd/toolboxd/daytona_process.go:923-927 | blanks around a status make no difference, and one that is no number is 1 |
| CommandRunner.RunMeaning | cmd/toolboxd/daytona_process.go:796-995 | after any frames in any interleaving the runner's buffers, counters and flags are what the bytes read so far determine |
| CommandRuns.LiveIsPrefixOfRecord | cmd/toolboxd/daytona_process.go:796-995 | at every moment the bytes broadcast on each stream are a prefix of the recorded text, and at the end equal it exactly when the start marker was seen or nothing was recorded |
| CommandRuns.FinalLive | cmd/toolboxd/daytona_process.go:957-986 | when the runner returns everything recorded has been broadcast, once the start marker was seen |
| CommandRuns.RunIsOneShot | cmd/toolboxd/daytona_process.go:888-937 | a run completes exactly when a one-shot parse of the whole streams does, and then records that parse's text, exit code and stderr, up to the one newline a chunk boundary keeps |
| CommandRuns.StartedIsSeen | cmd/toolboxd/daytona_process.go:890-907 | the start marker is noticed exactly when it occurs in the stream, whatever the trimming dropped |
| CommandRuns.RunRecord | cmd/toolboxd/daytona_process.go:906-995 | every run, however it ends, records what its two streams hold: what a parsed end marker says, or else all the command wrote with the session's own exit code, and stderr up to the sentinel |
| CommandRuns.ClosedRecord | cmd/toolboxd/daytona_process.go:967-990 | so does one whose session closes before both ends were read, with nothing held back lost |
| CommandRuns.LiveIsPrompt | cmd/toolboxd/daytona_process.go:850-948 | at every moment of a begun run all is broadcast but what may still become a marker |
| CommandRuns.DoneStays | cmd/toolboxd/daytona_process.go:875-937 | frames after completion change nothing |
| CommandRuns.WrapperRoundTrip | cmd/toolboxd/daytona_process.go:804-937 | what the wrapped command prints, for any noise before it and any chunking, is recorded and broadcast back with its status |
| SessionCommand.CommandRun.OnStdout | cmd/toolboxd/daytona_process.go:888-948 | the stdout closure steps the fields as the specification does |
| SessionCommand.CommandRun.OnStderr | cmd/toolboxd/daytona_process.go:841-886 | the stderr closure steps the fields as the specification does |
| SessionCommand.RunSessionCommand | cmd/toolboxd/daytona_process.go:796-995 | the loop over frames returns the record of its two streams and broadcasts it |
| Utf8.DecodedIsEncoded | cmd/toolboxd/daytona_process.go:188-216 | the byte patterns accepted as a character are exactly encodings of a scalar value |
| Utf8.EncodedIsDecoded | cmd/toolboxd/daytona_process.go:188-216 | every scalar value's encoding is accepted and decodes to it |
| Utf8.FindWholeRunesLen | cmd/toolboxd/daytona_process.go:206-216 | the backward loop computes the whole-character length |
| Utf8.FullRuneExactly | cmd/toolboxd/daytona_process.go:206-216 | a character is full if and only if no bytes added behind it change how it decodes |
| Utf8.WholeRunesLenIsExact | cmd/toolboxd/daytona_process.go:206-216 | it drops at most three bytes, from a character's first byte on, and the cuts no later byte can change are exactly those up to it |
| Utf8.SameLengthUtf8 | cmd/toolboxd/daytona_process.go:188-200 | the in-place loop writes the same-length text |
| Utf8.SameLengthIsValid | cmd/toolboxd/daytona_process.go:188-200 | for any bytes the same-length text is valid UTF-8 |
| Utf8.ValidUnchanged | cmd/toolboxd/daytona_process.go:188-200 | valid text is left as it is |
| LogWindow.CutLogWindow | cmd/toolboxd/daytona_process.go:168-181 | a window's end is its start, clamped to the text, plus the bytes it returns |
| LogWindow.WindowExactly | cmd/toolboxd/daytona_process.go:168-181 | a window holds the whole characters that fit, and nothing only when there is nothing or an unfinished character of a live text |
| LogWindow.WindowMovesForward | cmd/toolboxd/daytona_process.go:168-181 | a final or cut window always advances |
| LogWindow.PollTiles | cmd/toolboxd/daytona_process.go:152-181 | resuming at each returned end covers the bytes with no gap or overlap |
| LogWindow.FinalReadsReachTheEnd | cmd/toolboxd/daytona_process.go:168-181 | for every limit, as many reads of the finished text as it has bytes left reach its end |
| LogWindow.PollReassembles | cmd/toolboxd/daytona_process.go:152-216 | the texts read so far are that part of the same-length whole, and stop being so at a character wider than the limit |
| LogWindow.PollerReadsEverything | cmd/toolboxd/daytona_process.go:152-216 | a poller that reaches the end has the same-length whole if and only if the limit is 0 or no character is wider, so always for limits of 4 and up |
| CommandLogs.PollingARun | cmd/toolboxd/daytona_process.go:690-717 | for every chunking, every moment of the polls and every limit, enough final reads reach the end of the record, and the client then has the recorded text, stray bytes as question marks, if and only if no character is wider than the limit |
| CommandLogs.PollsAre | cmd/toolboxd/daytona_process.go:690-717 | each live read is of what the runner has broadcast by then |
| CommandStream.EveryRun | cmd/toolboxd/daytona_process.go:85-135 | in every interleaving only open channels are subscribed, none is closed twice and all are once finish is over, and a subscriber that missed nothing sees the full stream on each stream id |
| CommandStream.FinishedForGood | cmd/toolboxd/daytona_process.go:117-135 | in every run, once finished a stream stays so without a subscriber, and every channel is closed or waits for its one close |
| CommandStream.MissedExactly | cmd/toolboxd/daytona_process.go:106-113 | a subscriber misses a frame exactly when one is broadcast while its channel is full |
| CommandStream.SubscribedAfresh | cmd/toolboxd/daytona_process.go:224-250 | a new subscriber has been replayed all there is and missed nothing |
| CommandStream.NobodyWaits | cmd/toolboxd/daytona_process.go:85-135 | broadcasting, finishing and subscribing wait for no reader, and a closed stream lets its channels be drained and closed |
| CommandStream.LiveStream.Broadcast | cmd/toolboxd/daytona_process.go:85-115 | appends the chunk and offers it to every subscriber, dropping where a buffer is full |
| CommandStream.LiveStream.Finish | cmd/toolboxd/daytona_process.go:117-135 | marks the stream finished and hands the subscribers over for closing |
| CommandStream.LiveStream.CloseSubscriber | cmd/toolboxd/daytona_process.go:132-134 | closes one of the channels handed over, which nothing is sent to any more |
| CommandStream.LiveStream.Subscribe | cmd/toolboxd/daytona_process.go:224-250 | returns the framed replay and registers the channel in one step, or says the stream is over |
| CommandStream.SubscriberReadsBack | cmd/toolboxd/daytona_process.go:22-29 | from the replay and the frames a client reads each stream as the subscriber was handed it, when no marker begins within a chunk |
| CommandFrames.FrameReplay | cmd/toolboxd/daytona_process.go:232-239 | the replay is one frame for each stream that is not empty, stdout's first |
| CommandFrames.WireReadsBack | cmd/toolboxd/daytona_process.go:22-29 | any frames in whose chunks no marker begins give both streams back |
| CommandFrames.SplitExactly | cmd/toolboxd/daytona_process.go:22-29 | for any frames the client makes out exactly these if and only if no marker begins within a chunk, be it to end in the next head |
| CommandFrames.UncleanCanReadBack | cmd/toolboxd/daytona_process.go:22-29 | frames it makes out wrongly whose streams come out right all the same |
| CommandFrames.UnmarkedExactly | cmd/toolboxd/daytona_process.go:22-29 | a chunk is read back before every unmarked chunk if and only if it neither holds a marker nor ends in a marker's byte |
| CommandFollow.FollowerGetsTheRecord | cmd/toolboxd/daytona_process.go:720-765 | in every interleaving of the runner's own broadcasts with the followers, at every moment, a follower that missed no frame has been handed exactly what was broadcast, a prefix of the record, and once the runner returned the recorded stderr and, if the command began, stdout |
| CommandFollow.FollowerReadsTheRecord | cmd/toolboxd/daytona_process.go:720-765 | and its client reads the recorded streams off a clean wire |
| CommandFollow.AllEmittedIsLive | cmd/toolboxd/daytona_process.go:850-986 | the chunks the runner's steps and its last flush broadcast add up to its live view |
| CommandFollow.RunnersPartIs | cmd/toolboxd/daytona_process.go:850-986 | the runner's part in a run is all of its own events and no other |
| ChildTable.EveryWaiterGetsItsOwnStatus | cmd/toolboxd/child_table.go:44-112 | in every interleaving, with pids reused freely, a wait by pidfd settles with its own child's status and never finds it gone |
| ChildTable.NothingLeftBehind | cmd/toolboxd/child_table.go:44-112 | a settled waiter is registered no more, and a status handed to it is in no channel |
| ChildTable.NumbersAreSafeWithoutReuse | cmd/toolboxd/child_table.go:78-112 | waiting by pid number is as safe while no pid is taken again before its waiter is done |
| ChildTable.ReuseBreaksNumbers | cmd/toolboxd/child_table.go:78-112 | every run by number that takes a pid again while a waiter for it lives can go on to settle that waiter with a status that is not its child's |
| ChildTable.NumbersAreUnsafeWithReuse | cmd/toolboxd/child_table.go:78-112 | a run in which one waiter takes another child's status and that child's is lost |
| ChildTable.DeliveryNeverBlocks | cmd/toolboxd/child_table.go:60-76 | the reaper's send always has room |
| ChildTable.Children.Start | cmd/toolboxd/child_table.go:44-58 | registers a started child under its pid |
| ChildTable.Children.Reap | cmd/toolboxd/child_table.go:60-76 | hands the status to whoever is registered and drops the entry |
| ChildTable.Children.Settle | cmd/toolboxd/child_table.go:92-112 | drops only the waiter's own entry and takes the reaper's status if there is one |
| ExecBuffered.EffectiveLimit | cmd/toolboxd/exec_buffered.go:68-73 | a positive cap no larger than the ceiling or a positive request |
| ExecBuffered.TrimPartialRune | cmd/toolboxd/exec_buffered.go:122-136 | agrees with wholeRunesLen on every byte sequence |
| ExecBuffered.CapturedStream.Add | cmd/toolboxd/exec_buffered.go:96-106 | for every chunking the stream holds the first limit bytes written, never more, and is truncated exactly when more were |
| ExecBuffered.CapturedStream.Text | cmd/toolboxd/exec_buffered.go:112-117 | the kept text of what was written |
| ExecBuffered.KeptTextIsPrefix | cmd/toolboxd/exec_buffered.go:88-136 | the reply is a prefix within the cap that loses at most three bytes to the cut |
| ExecBuffered.KeptTextIsValid | cmd/toolboxd/exec_buffered.go:108-136 | valid output stays valid UTF-8 |
| ExecBuffered.ExecCollector.OnRead | cmd/toolboxd/exec_buffered.go:146-163 | reads after the reply are dropped and truncate nothing |
| ExecBuffered.ExecCollector.Finish | cmd/toolboxd/exec_buffered.go:167-177 | freezes the reply with both kept texts and exact truncation flags |
| ExecBuffered.DrainersBounded | cmd/toolboxd/exec_buffered.go:270-285 | in every interleaving of the adds no more readers drain than the budget, and the counter stays exact |
| ExecBuffered.RefusedExactly | cmd/toolboxd/exec_buffered.go:270-285 | in every interleaving a job is refused if and only if the readers draining and the refused jobs not yet gone fill the limit |
| ExecBuffered.RefusedBelowLimit | cmd/toolboxd/exec_buffered.go:270-285 | a run in which a job is refused while no reader is draining |
| FreezeThaw.ClampFreezeThawAfter | cmd/toolboxd/vsock.go:338-348 | the delay lies between one second and thirty minutes and is the request when that does |
| FreezeThaw.ThawDelayBounded | cmd/toolboxd/vsock.go:332-394 | every delay lies between one second and thirty minutes even when the product in nanoseconds wraps |
| FreezeThaw.ThawDelayExactly | cmd/toolboxd/vsock.go:384-394 | for every request, when the delay is the clamp of what was asked for: the product fits, or what is left of it clamps alike |
| FreezeThaw.ThawDelayWraps | cmd/toolboxd/vsock.go:384-394 | the first request that wraps, and is given the default delay instead of the longest |
| FreezeThaw.FrozenMeansGuarded | cmd/toolboxd/vsock.go:384-472 | in every run the flag is the kernel's state, and a frozen filesystem has a current callback armed or on its way if and only if no thaw was refused since the last freeze |
| FreezeThaw.EveryStepTakesEffect | cmd/toolboxd/vsock.go:384-472 | in every run an acknowledged freeze_fs leaves the kernel frozen with its own timer armed and no other callback able to lift it, a granted thaw leaves it thawed with none, and a callback lifts its own freeze or changes nothing |
| FreezeThaw.OldCallbackNeverThaws | cmd/toolboxd/vsock.go:437-450 | a callback that lifts a freeze was armed by that very freeze |
| FreezeThaw.FailedThawLeavesNoNet | cmd/toolboxd/vsock.go:418-432 | in every run a thaw_fs the kernel refuses leaves the filesystem frozen with no callback left, whatever came before |
| FreezeThaw.FreezeState.OnFreezeFs | cmd/toolboxd/vsock.go:384-413 | freezes unless frozen, stops the old timer, and arms a new generation's |
| FreezeThaw.FreezeState.OnThawFs | cmd/toolboxd/vsock.go:418-432 | stops the timer, moves the generation on, and thaws if the kernel does |
| FreezeThaw.FreezeState.SafetyThawCallback | cmd/toolboxd/vsock.go:437-450 | thaws only the freeze of its own generation |
| FreezeThaw.FreezeState.OnPostResume | cmd/toolboxd/vsock.go:455-472 | lifts a held freeze and keeps the timer when the kernel refuses |
| Terminals.TableIsBounded | cmd/toolboxd/daytona_pty.go:353-517 | in every run at most limit terminals are unreleased, at most keepFinished are released, and every entry past its creation has a session |
| Terminals.CreatedAgain | cmd/toolboxd/daytona_pty.go:377-440 | between two successful creations of one id the earlier terminal exited, was killed or was deleted |
| Terminals.OverlappingCreates | cmd/toolboxd/daytona_pty.go:377-400 | every create of a running id is answered with it or with a conflict, and waits while it is being created |
| Terminals.FreshCreate | cmd/toolboxd/daytona_pty.go:377-412 | in every run a create of an id no live terminal has makes a new one if and only if there is room beside the id's own, finished one, which is gone either way |
| Terminals.OverlappingLeave | cmd/toolboxd/daytona_pty.go:377-400 | a create of a live terminal's id changes no terminal |
| Terminals.StartedEffect | cmd/toolboxd/daytona_pty.go:429-440 | a started shell makes the terminal live, one that would not start gives the id back |
| Terminals.EndedEffect | cmd/toolboxd/daytona_pty.go:453-621 | a shell that exits, is deleted or is killed is no live terminal any more, and only a kill takes it out of the table at once |
| Terminals.ReleaseEffect | cmd/toolboxd/daytona_pty.go:460-484 | a release frees the terminal's slot, and of the finished ones only the newest stay |
| Terminals.OneLiveTerminal | cmd/toolboxd/daytona_pty.go:353-445 | two live terminals of one id are the same terminal |
| Terminals.Table.CreateTurn | cmd/toolboxd/daytona_pty.go:377-412 | one locked turn of create answers and changes the table as specified, the forgotten finished terminal included when it is refused |
| Terminals.Table.CreateDone | cmd/toolboxd/daytona_pty.go:429-440 | a started shell keeps its entry, a failed one drops its own |
| Terminals.Table.PruneLocked | cmd/toolboxd/daytona_pty.go:500-509 | removes exactly the entries past creation whose session is gone |
| Terminals.Table.HeldLocked | cmd/toolboxd/daytona_pty.go:488-496 | counts the unreleased entries |
| Terminals.Table.ForgetLocked | cmd/toolboxd/daytona_pty.go:512-517 | drops the entry only if it is this terminal's, and deletes its session |
| Terminals.Table.ReleaseLocked | cmd/toolboxd/daytona_pty.go:460-484 | releases the terminal and forgets the oldest finished ones past the cap, and no more |
| WatchBatches.LastAgreesWithScan | cmd/toolboxd/watch.go:104-150 | after any calls the last map is what a backward scan of the events finds |
| WatchBatches.NothingLost | cmd/toolboxd/watch.go:120-132 | without an event_buffer overflow the batch holds every change in order but those repeating their path's latest |
| WatchBatches.NothingLostByPath | cmd/toolboxd/watch.go:120-132 | then each path's events are the raw ones with immediate repeats removed |
| WatchBatches.LossIsReported | cmd/toolboxd/watch.go:120-150 | event_buffer is reported if and only if a change was neither kept nor folded, or the reader reported it |
| WatchBatches.SizeIsBounded | cmd/toolboxd/watch.go:120-150 | at most max changes and max plus three events |
| WatchBatches.WatchBatch.AddEvent | cmd/toolboxd/watch.go:120-132 | folds, drops with a report, or appends, as specified |
| WatchBatches.WatchBatch.OverflowLocked | cmd/toolboxd/watch.go:142-150 | one report a reason |
| WatchBatches.WatchBatch.Take | cmd/toolboxd/watch.go:153-164 | hands over the batch and leaves an empty one |
| WatchBudgets.CountIsExact | cmd/toolboxd/watch.go:167-192 | in every run the count is the number of watches holding a slot and never passes the cap |
| WatchBudgets.WatchIs | cmd/toolboxd/watch.go:167-192 | in every run a watch holds its slot from its opening until its arming fails or its first close |
| WatchBudgets.WatchBudget.OpenStream | cmd/toolboxd/watch.go:179-187 | takes a slot exactly when one is free |
| WatchBudgets.FileWatch.Close | cmd/toolboxd/watch.go:373-378 | closing any number of times gives the slot back once |
| MovePath.Move | cmd/toolboxd/files.go:202-229 | for a sound request, whichever calls fail, src and dst are at every moment as they were or dst holds all of src, an error but a leftover original means nothing changed there, and success that dst holds it all and src is gone; when no call fails of itself every other request breaks this, each kind in its own way, and the move succeeds if and only if it can be done: src is there, the paths fit, dst's folder is there or can be made, dst is free or replaceable, and across mounts the tree can be copied; one into src itself errs and loses nothing; the temporary name is left only if a call failed |
| MovePath.MoveAcross | cmd/toolboxd/files.go:222-228 | the same for the copy, its placing and the removal across mounts |
| MovePath.UnsoundOrders | cmd/toolboxd/files.go:202-229 | a request of each of the three kinds that are not sound |
| MovePath.RefusedIsSound | cmd/toolboxd/files.go:205-212 | what is refused as nested was sound, so the refusal keeps the promise |
| MovePath.Copy | cmd/toolboxd/files.go:235-249 | dst is as it was or holds the whole copy at every moment, nothing else but the temporary name changes, and when no call fails of itself it succeeds if and only if it can be done and leaves no temporary name; a folder copied into itself is refused with nothing touched |
| MovePath.CopyIntoPlace | cmd/toolboxd/files.go:262-285 | dst changes once, to the whole copy, whichever call fails, and does when none fails of itself and the copy can be made and put there |
| MovePath.MkdirAll | cmd/toolboxd/files.go:213-217 | adds only missing folders on the way, and on success all of them |
| MovePath.RefuseNesting | cmd/toolboxd/files.go:377-398 | refuses only a destination inside the folder, and always one whose own folder exists and resolves |
| Disks.Disk.CopyTree | cmd/toolboxd/files.go:290-332 | ends for every tree, touches only the temporary name, on success holds every entry with its bytes, link target and mode, errs when a folder's copy lies inside it, and otherwise, when no call fails of itself, succeeds if no entry defies copying and no path gets too long, and only then |
| Disks.Disk.Rename | cmd/toolboxd/files.go:252-257 | in one step dst holds the tree and src is gone, or nothing has changed; when it does not fail of itself, exactly when dst's folder is there and dst is free or may be replaced |
| Disks.Disk.CopyFileContents | cmd/toolboxd/files.go:336-356 | on success the new file is the old one, on failure only it may be there |
| FileTree.MovedIsTree | cmd/toolboxd/files.go:252-257 | a rename puts the whole tree at the new name |
| Spool.ReadAheadIsBounded | cmd/aerolvm/audit_s3export.go:158-270 | in every interleaving no batch is fetched twice, outstanding counts the prefetched unopened batches within the cap, and the jobs channel never fills |
| Spool.WorkersAreBounded | cmd/aerolvm/audit_s3export.go:99-185 | there are as many workers as asked for, at least one and no more than batches, and no more downloads run at once |
| Spool.ReadAheadIsFull | cmd/aerolvm/audit_s3export.go:188-202 | whenever the walk is not dispatching, the cap is reached or every batch handed out |
| Spool.OpensAreDirectReads | cmd/aerolvm/audit_s3export.go:224-270 | every Open of a batch ends with what its one download gave |
| Spool.OpensEndInOrder | cmd/aerolvm/audit_s3export.go:224-270 | every Open that began has ended, in the order they began, but for the one under way |
| Spool.NeverStuck | cmd/aerolvm/audit_s3export.go:158-270 | while an Open or a dispatch is under way some party can move |
| Spool.OpenEndsInTime | cmd/aerolvm/audit_s3export.go:224-270 | between two Opens a run takes only a bounded number of steps, so every Open ends |
| Spool.SpoolDay.constructor | cmd/aerolvm/audit_s3export.go:158-167 | lists each name once, where it first appears |
| Spool.SpoolDay.Dispatch | cmd/aerolvm/audit_s3export.go:190-202 | the loop hands out the next unclaimed batches until the cap or the end |
| Spool.SpoolDay.OpenClaim | cmd/aerolvm/audit_s3export.go:240-250 | claims an unclaimed batch, known or not, for the walk itself |
| Spool.SpoolDay.OpenHandOver | cmd/aerolvm/audit_s3export.go:258-269 | the first Open of a prefetched batch frees its place and dispatches |
| ParallelWalk.EndsAsTheSimpleLoop | cmd/aerolvm/access_review.go:429-477 | in every schedule the walk adds exactly the shares before the first failing node, in node order, returns its error, and leaves no reader and no slot behind |
| ParallelWalk.AlwaysBounded | cmd/aerolvm/access_review.go:439-476 | at most four nodes are unmerged at any moment, and what was added is a prefix of what will be |
| ParallelWalk.NeverStuck | cmd/aerolvm/access_review.go:439-476 | no schedule deadlocks |
| ParallelWalk.EveryRunEnds | cmd/aerolvm/access_review.go:439-476 | every schedule ends within six steps a node and one more |
| ParallelWalk.MergeLoop | cmd/aerolvm/access_review.go:462-477 | the merge loop returns the left-to-right result whatever arrives after the first failure |
| AuditRecords.SanitizeDisplayName | pkg/controlplane/principal.go:201-215 | the loop computes the cleaned name |
| AuditRecords.CleanIsPrintable | pkg/controlplane/principal.go:193-215 | no control character and at most 256 characters are left |
| AuditRecords.TrimmedMeaning | pkg/controlplane/principal.go:193-215 | trimming takes the white space off both ends and nothing else |
| AuditRecords.PrintableKeeps | pkg/controlplane/principal.go:201-215 | a text without control characters is kept up to the cap |
| AuditRecords.PrintableSkips | pkg/controlplane/principal.go:201-215 | a control character makes no difference, wherever it stands |
| AuditRecords.ActionTextIs | cmd/aerolvm/access_review.go:686-698 | a last action is the routes, the route or the kind and reference, as the record asks |
| AuditRecords.JoinedBoth | cmd/aerolvm/access_review.go:688-691 | the routes of two lists are joined as the two texts are |
| AuditRecords.CountsMeaning | cmd/aerolvm/access_review.go:581-644 | a record stands for the calls dropped or folded into it, one at least, and a refusal for itself and those dropped |
| ReviewMeaning.RowCounts | cmd/aerolvm/access_review.go:633-658 | a row holds the sums of its caller's calls by kind, of the denied and of the rate-limited ones, and their teams |
| ReviewMeaning.RowLastSeen | cmd/aerolvm/access_review.go:659-662 | last seen is the newest record's time, with the action and node of the first at it |
| ReviewMeaning.RowName | cmd/aerolvm/access_review.go:653-655 | in one pass the name is that of the last record to name the caller at the latest instant any does |
| ReviewMeaning.ReviewRowSays | cmd/aerolvm/access_review.go:498-757 | in the review of any number of nodes a caller has a row exactly when a record counts against them, and it says what all of those records say |
| ReviewPrincipals.MergedIsOnePass | cmd/aerolvm/access_review.go:633-684 | two nodes' rows merged are the row of all the records in one pass, but for the name |
| ReviewPrincipals.NameAgreesExactly | cmd/aerolvm/access_review.go:653-680 | the name agrees too if and only if the nodes do not name the caller differently at one instant |
| ReviewPrincipals.NamesAgreeExactly | cmd/aerolvm/access_review.go:653-757 | for any number of nodes the merged name is that of the first node to name the caller at the latest instant, the one-pass name that of the last, and they agree if and only if those two do |
| ReviewPrincipals.NamesCanDiffer | cmd/aerolvm/access_review.go:653-680 | two records for which it does not |
| ReviewTables.TableRow | cmd/aerolvm/access_review.go:498-530 | each caller's row is the fold of that caller's records alone |
| ReviewTables.SharesMergeToOnePass | cmd/aerolvm/access_review.go:737-757 | for any number of nodes the merged rows are those of one fold over all records in node order |
| ReviewTables.MergedTableRow | cmd/aerolvm/access_review.go:737-757 | the merged table's row for a caller is that caller's rows on the nodes that saw them, merged in node order |
| ReviewTables.TableNamesAgreeExactly | cmd/aerolvm/access_review.go:653-757 | in that table a caller's name is the first latest node's, in one pass the last's, and they agree if and only if those two do |
| ReviewTables.MergedCounts | cmd/aerolvm/access_review.go:498-757 | merging loses no call of any kind and counts none twice |
| ReviewTables.TokenRowsMeaning | cmd/aerolvm/access_review.go:853-859 | each listed token gets its own row where it is first listed, and the rows left are nobody's listed |
| ReviewTables.ReportConservesCalls | cmd/aerolvm/access_review.go:842-919 | for any token list the token rows and the caller rows together hold exactly the recorded calls of each kind |
| Refusals.TableIsValid | cmd/aerolvm/access_review.go:581-614 | a share has at most 1001 rows, the folded one among them when full, and each count is the sum of its reasons |
| Refusals.RefusalsAreConserved | cmd/aerolvm/access_review.go:581-769 | through folding and merging the rows sum to one plus the positive Dropped of each auth_denied record, and stay as bounded |
| RefusalMeaning.TableRows | cmd/aerolvm/access_review.go:581-614 | on a node the first 1000 different sources have a row of their own, the others the folded one, and each row has counted its own denials |
| RefusalMeaning.NodeRowSays | cmd/aerolvm/access_review.go:581-596 | such a source's row counts its refusals by reason and was last seen at the newest of them |
| RefusalMeaning.MergedRows | cmd/aerolvm/access_review.go:759-771 | the same of the merged rows, of what the nodes bring in their order |
| RefusalMeaning.AbsorbedCounts | cmd/aerolvm/access_review.go:759-769 | a merged row adds up the rows it absorbed, in all and by reason |
| RefusalMeaning.AbsorbedLastSeen | cmd/aerolvm/access_review.go:766-768 | and was last seen when the latest of them was, the first node counting in a tie |
| Refusals.OrderIsUnique | cmd/aerolvm/access_review.go:616-630 | sources are merged in one order, however the map yields them |
| Refusals.SourcesInOrder | cmd/aerolvm/access_review.go:618-630 | lists every source once, sorted, the folded row last |
| Refusals.ReportIsUnique | cmd/aerolvm/access_review.go:817-823 | and so are the report's refusal rows listed |
| Refusals.ReportRows | cmd/aerolvm/access_review.go:817-823 | lists every row, most refusals first and then by source |
| AccessReview.AddRecord | cmd/aerolvm/access_review.go:633-662 | the field by field update is the specified fold |
| AccessReview.MergeRows | cmd/aerolvm/access_review.go:668-684 | the field by field merge is the specified merge |
| AccessReview.AbsorbRow | cmd/aerolvm/access_review.go:759-769 | the field by field merge of a refusal row is the specified one |
| AccessReview.EvidenceIs | cmd/aerolvm/access_review.go:498-530 | a node's records are told apart into refusals by source and acts by caller |
| AccessReview.ReviewShare.Observe | cmd/aerolvm/access_review.go:498-530 | a share's rows are always those of the records it has seen |
| AccessReview.ReviewShare.Refuse | cmd/aerolvm/access_review.go:581-596 | an auth_denied record counts for its source |
| AccessReview.ReviewMerge.AddShare | cmd/aerolvm/access_review.go:737-771 | the merged rows are always those of the shares added, in order |
| AccessReview.TakeTokenRows | cmd/aerolvm/access_review.go:853-859 | each listed token takes its activity out of the rows once |
| AccessReview.ReviewOfAnySchedule | cmd/aerolvm/access_review.go:403-919 | whatever the walk's schedule, a review without a failing node reports one pass over all records, and conserves calls and refusals |
| Sso.NoTokenIsSentTwice | cmd/aerolvm/sso.go:864-960 | no run of any number of processes, dying anywhere and taking over abandoned locks, sends a refresh token already exchanged, as long as every step is benign where it is taken |
| Sso.RenewalEnds | cmd/aerolvm/sso.go:864-960 | a renewal is over after at most four more steps of its own, which no other process changes, and never lacks a next one |
| SsoFaults.FaultReuses | cmd/aerolvm/sso.go:864-960 | after any such run any step that is not benign, a replaced login aside, can be followed by benign steps up to the sending of a spent token |
| SsoFaults.TakeoverReuses | cmd/aerolvm/sso.go:934-950 | so can taking over the lock of a live process, wherever it is, or of one that died between its exchange and its save |
| SsoFaults.LoadFailsReuses | cmd/aerolvm/sso.go:881-888 | so can a failed load, whether the process's own token was spent or not |
| SsoFaults.FaultsHappen | cmd/aerolvm/sso.go:864-960 | one renewal during which each of these steps can be taken |
| SsoFaults.SignedOutReuses | cmd/aerolvm/sso.go:881-917 | after any such run that left the lock free and two processes alive, replacing the login by none or another can be followed by one token being sent twice |
| SsoSession.RetriesAreSpaced | cmd/aerolvm/sso.go:816-832 | after a failed renewal the next attempt of a session is at least a minute later, whatever the clock does |
| Sso.LoadedExactly | cmd/aerolvm/sso.go:881-888 | a load takes over what the file holds of this login, and leads to a renewal exactly when it is another's or under a minute is left |
| Sso.SpentAndReused | cmd/aerolvm/sso.go:864-960 | a run counts as reusing a token exactly when one already exchanged is sent, and processes start and die freely |
| SsoSession.AttemptsExactly | cmd/aerolvm/sso.go:816-832 | a renewal is tried if and only if less than a minute remains and no failure in the last minute is remembered |
| SsoSession.ZeroTimeIsForgotten | cmd/aerolvm/sso.go:816-832 | a failure at the zero time is not waited for |
| SsoSession.SsoSession.Token | cmd/aerolvm/sso.go:816-832 | a login with a minute left is returned unchanged without a renewal, one with less is renewed unless a failure under a minute old is remembered, and the failure or success is remembered |
| SsoSession.SsoSession.Renew | cmd/aerolvm/sso.go:871-919 | takes over a renewed login from the file, sends the saved login's token otherwise, and saves only what was granted over what was loaded |
| ShellQuote.ShellQuote | cmd/aerolvm/exec.go:181-196 | the scan quotes as specified |
| ShellQuote.ShellCommand | cmd/aerolvm/exec.go:170-179 | the loop builds the specified command line |
| ShellQuote.QuotedIsRead | cmd/aerolvm/exec.go:181-196 | between two tokens a quoted word reads as exactly that word |
| ShellQuote.SingleWordReadsBack | cmd/aerolvm/exec.go:170-174 | a single word is read as itself if and only if it is not empty, begins no comment and holds no blank, quote, backslash, operator or expansion |
| ShellQuote.CommandLineReadsBack | cmd/aerolvm/exec.go:170-196 | the shell sees exactly the words given if and only if they are not a single word of the other kind |
| ShellQuote.SingleWordIsNotQuoted | cmd/aerolvm/exec.go:170-174 | a single word that reads as two words, and one that is more than words |
| ShellQuote.CommandLineIsInjective | cmd/aerolvm/exec.go:170-196 | different word lists that read back make different command lines |

## Left out

- HTTP handlers, WebSocket upgrades, routing, JSON shapes, logging, report rendering and flags: plumbing around the cores.
- Sign-in flows, discovery documents and whoami text: network client code.
- The polling and the deadline of lockFile: only its exclusive creation, its takeover and its removal are steps of `Sso`.
- Audit chain verification, the S3, AWS and oauth2 libraries and the session manager: their results are arbitrary inputs.
- Folder budgets of file watches, terminal resizing and input, and listing: easy members.
- The token changes, identity changes, flags and findings of the access review: they only append to lists.
- Cancelling a walk, a spool or a log wait from outside.
- Counts that pass 64 bits: the sums of the access review and the freeze generation are unbounded here.
- Rows of the access review are values in maps, so that a share's row becoming the merged row is not an alias.
- Sso.NoTokenIsSentTwice: that nobody signs in or out meanwhile is a hypothesis, of which only the failing half is proved.
- SessionMarkers.ExitCodeOfDecimal: white space around the exit code is ASCII white space only, because the shell prints none.
- CommandFollow.FollowerGetsTheRecord: the runner is one whose wrapper was written to the shell; one that fails to write broadcasts nothing.
- CommandFrames.WireReadsBack: the client is the one the marker comment describes; the SDK's own is not part of this model.
- MovePath.Move: takes the temporary name to be new and the destination not to be the root; a path's length limit is counted in names; owners and times are not copied.
- Disks.Disk.Rename: models the atomic kernel call; the check-then-rename fallback of other systems is not modelled.
- MovePath.RefuseNesting: paths are taken with their symbolic links resolved, and whether the destination's folder resolves is an input.
- Terminals.Table.ReleaseLocked: the sort by creation time is a repeated choice of the oldest, so ties fall either way, as they may in the source.
- Spool.OpensAreDirectReads: a batch's spool file is taken to open, and a day is walked to its end.
- FreezeThaw.FrozenMeansGuarded: SyncFilesystems is left out, since its failure is only logged.
- ShellQuote.CommandLineReadsBack: token level only; what a first word means as an assignment or a reserved word is outside it, and text with an operator, an expansion or a pattern counts as not read back.
- AccessReview.ReviewOfAnySchedule: says nothing of names, which `TableNamesAgreeExactly` settles of the same merged table.
