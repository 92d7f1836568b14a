# ClipHub: a verified model

ClipHub is a clipboard broker: a hub numbers clips, keeps a bounded history in memory over a SQLite table, and streams
every clip to its subscribers; a desktop agent polls a local clipboard, sends what is new and applies what others sent.
This project models that core in Dafny and proves what it guarantees, and exactly where a guarantee stops.

## How it is laid out

The hub appears twice, over the same specification functions.

* `HubSpec` and `Tables` say on values what each critical section of the hub and each statement on the table does.
* `Protocol` is the hub as a system of interleaved atomic steps: concurrent `Put` calls and the publish turnstile with
  its condition variable, stream connections with their 16-place channels, `Clear`, the reaper and its late delete,
  unsubscribing, and a client that reconnects with the last number it saw. `Turnstile`, `Memory`, `Delivery`,
  `Persistence` and `Streams` prove the invariant of that system piece by piece; `RunTheorems` and `Restarts` state the
  results for every run, and for every sequence of hub processes on one table. Clock readings are inputs of the steps
  and may be anything; only the results about expiry and restarts ask for a run that is `Timely`, and coherence for one
  that is prompt. Fields of the state marked "history variable" are read by no guard.
* `HubClass` is the hub as the source lays it out, on one thread: a slice over a backing array, a `current` pointer that
  may point into that array, byte arrays behind references, subscriber channels and a `Store` object (`TableStore`).
  Its ghost `Model` is a `HubSpec` state, and `Valid` also separates it from everything that waits in channels.
  `Callers` lets callers keep and overwrite every array they ever had, and compares all they see with a hub of values.
* `Paging` and `Cursors` treat history pages, the walk along their cursors while the history changes, and the text of
  cursors. `Endpoints` holds the handler's two loops and the client's reconnect loop.
* `Monitor`, `DesktopAgent` and `Fleet` model the agent: the three-key monitor as a class, the poll loop and bootstrap
  around it, and any number of agents around one hub with every monitor call atomic.
* `Timestamps` compares the text order of RFC 3339 stamps, which the expiry delete uses, with the order of instants.
* `Checksums` is the printer and parser of the release checksum file.

Outcomes of I/O (a read or write of the clipboard, a statement on the table, a send, a clock reading, a privacy
decision) are parameters. SHA-256 is an arbitrary function of the bytes; no result needs it to be injective, because
every guarantee is about equal hashes.

## Main results

* **Put.** A call takes the next number if and only if the current clip has another MIME type or another hash than its
  payload; every clip in the history is found under its number. What one agent sends is what another applies, and the
  key recorded for it is the clip's own.
* **Turnstile.** In every reachable state the numbers in flight are exactly `publishedSeq+1 .. seq`, one call each; a
  sleeping call never owns the next number, so nothing deadlocks although waking goes through a condition variable; the
  publisher steps terminate with nothing in flight.
* **Stream.** Whatever is dropped, expired or cleared, a connection sends strictly increasing numbers, each item the one
  committed under its number. All of them lie above `since` if and only if the guard holds: the subscription was not
  behind `since`, or the replay was not empty (or nothing has been sent). It has sent exactly `since+1, since+2, ...`
  (without since_seq: the numbers from the subscription on) if and only if the replay it has sent did and, once live
  items have gone out, nothing was published between the end of the replay and the subscription, the guard holds, and no
  item the replay had not sent was dropped before a later one went out; a history covering the gap leaves only guard and
  drops to decide. A handler that has caught up has sent exactly the replay, and of everything published since its
  subscription all that lies above the replay but the drops.
* **Reconnects.** Over any number of reconnects, what the client receives is strictly increasing and above its start if
  and only if every connection it read from was guarded, and gap-free if and only if every item was next in line when
  received, so that a drop the next replay makes good does no harm; a concrete run repeats an item. A client that has
  seen nothing is sent only what is published after its subscription.
* **Table.** Saved numbers climb strictly over any sequence of hub processes, each with settings and clock readings of
  its own, with failed saves, clears and crashes. After a crash a number is given out again by some run of the next
  process if and only if it lies above the greatest number ever saved, so a number already streamed can come back.
* **Memory and table.** Memory answers as the table would for exactly the items whose save did not fail, whatever ttl
  older rows were saved with, as long as new items outlive the deletes still pending, as they do on a clock that never
  steps back; a step keeps memory ahead of those deletes if and only if it is prompt in this sense. On such a clock a
  step keeps memory mirroring the table if and only if it is calm: a clear finds nothing unsaved, a reap expires nothing
  unsaved, no save fails. After a calm run a hub stopped with no call in flight comes back with exactly its memory if
  and only if none of its newest rows is due to a pending delete. A concrete run shows a clear that overtakes a save and
  leaves its row behind.
* **Ownership.** The hub on its shared heap is indistinguishable from a hub of plain values: over any sequence of
  requests, with callers overwriting all arrays they have in between, every answer, error, waiting item, the table and
  every byte of the callers' arrays is what the hub of values gives. All arrays handed to callers are different, and
  overwriting some of them changes no later answer as long as these very arrays are not passed to a `Put`.
* **Paging.** Following cursors while clips are stored and deleted gives every clip that stayed, once, in falling order,
  and nothing stored after the first page. As long as there is more to come, it has read fewer items than the first
  listing had, so it ends.
* **Agents.** In every run of any number of agents, restarts included and whatever the hub holds at first, it commits at
  most one clip per clipboard an agent starts on, user copy, outside post, lost acknowledgement, and failed write or
  read-back that leaves what the monitor will not have seen last. When exactly such a fault makes the next poll offer
  what it left is proved for faults at any point of the poll loop; a concrete run reaches the bound.
* **Expiry text.** Stamps with a numeric offset sort as their instants; stamps printed with `Z` do so exactly when they
  do not share a second with one printed fraction a proper prefix of the other, and the error is below a second.
* **Checksums.** With hex sums, printing and parsing give the list back if and only if no name holds a newline and the
  last name neither is empty nor ends in white space.

## Where code and documentation differ

The model follows the code.

* `docs/architecture.md` calls the sequence monotonic. Saved numbers are; a number that was streamed but not yet saved
  when the hub stops can be reused, and `Restarts.ReusedExactly` says which can.
* `docs/architecture.md` promises no echo loops. After a failed clipboard write a remote clip can be sent back once
  (`Fleet.FailedWriteEchoes`, and `Monitor.FaultyApplyOffers` for the condition); the number of clips stays bounded
  (`Fleet.NoFeedbackLoop`).
* The comment on the store's history page speaks of items newer than the cursor; the query selects older ones.
* The reconnect loop resets its delay after a connection that ends without an error; none does, so the delay only grows
  (`Endpoints.WaitAt`).

## Model

| member | source | states |
|---|---|---|
| Turnstile.StepOrdered | internal/hub/hub.go:118-153 | every step keeps: numbers in flight are exactly publishedSeq+1..seq, one owner each with the item it committed; only the owner of the next number holds the lock, and it never sleeps |
| Turnstile.PublishedInOrder | internal/hub/hub.go:305-332 | publishedSeq moves by one, only when the call that committed that number releases its turn, and only that call leaves |
| Turnstile.InFlightCount | internal/hub/hub.go:126-153 | as many calls in flight as unpublished numbers |
| Turnstile.ExactlyOneMayEnter | internal/hub/hub.go:311-314 | with the lock free and calls in flight, exactly one call gets through the wait loop |
| Turnstile.NoDeadlock | internal/hub/hub.go:311-331 | while a call is in flight some publisher step is enabled; with none, everything committed is published |
| Turnstile.PublisherTerminates | internal/hub/hub.go:311-331 | every publisher step lowers a well-founded measure led by seq - publishedSeq |
| Turnstile.Drain | internal/hub/hub.go:305-332 | from every reachable state publisher steps alone lead to a state with nothing in flight and all numbers published |
| Turnstile.CommitTakesNumber | internal/hub/hub.go:119-150 | a call takes the next number if and only if the current clip differs in MIME type or in the hash of the payload that type selects; then it commits its input as the clip of that number, otherwise nothing changes |
| Turnstile.TwoCommits | internal/hub/hub.go:119-150 | of two calls in a row the second is refused exactly for the same MIME type and payload digest, so the same payload if the digest is injective |
| HubSpec.CommitKeepsTidy | internal/hub/hub.go:126-150 | a commit keeps the history falling in number and expiry, bounded, headed by current, and free of neighbours equal in hash and MIME type |
| HubSpec.CommitExactly | internal/hub/hub.go:144-150 | the new item in front, each other one place further, the oldest out of a full history |
| HubSpec.ReapKeepsTidy | internal/hub/hub.go:406-425 | a reap keeps exactly the unexpired items, which are a prefix, and current becomes nil only with the whole history |
| HubSpec.ReapExactly | internal/hub/hub.go:406-425 | exactly the items not past their expiry stay, and current unless it is past its own |
| HubSpec.ReapKeepsSane | internal/hub/hub.go:406-425 | whatever the clock does, a reap leaves current nil or equal to the newest item |
| HubSpec.RememberedExactly | internal/hub/hub.go:238-251 | a lookup in memory finds every item of the history under its number, and nothing else |
| Memory.StepMem | internal/hub/hub.go:126-150 | every step, at any clock readings, keeps the history falling, bounded and headed by current, each item the one committed under its number |
| Memory.StepExpiry | internal/hub/hub.go:406-435 | every step taken on time keeps expiry falling and every pending delete below what memory holds; a reap may read any clock |
| Memory.StepBehind | internal/hub/hub.go:406-435 | a step keeps everything in memory outliving the pending deletes if and only if a new item outlives them |
| Memory.TimelyIsPrompt | internal/hub/hub.go:406-435 | on a clock that never steps back every run does |
| Clips.TakeUnexpired | internal/hub/hub.go:418-425 | filtering by expiry commutes with cutting to maxHistory when expiry falls |
| Clips.CoveredReplay | internal/hub/hub.go:224-235 | a history that holds every number of a range, turned round, is that range in order with nothing missing |
| Clips.TakeIs | internal/hub/hub.go:147-149 | a cut list begins the whole one, with the length cut to the bound |
| Delivery.OfferKeepsChannel | internal/hub/hub.go:316-321 | one non-blocking send keeps received, queued and dropped in balance and order; a drop needs 16 waiting, so the first item is never dropped |
| Delivery.StepDelivery | internal/hub/handler.go:284-348 | every step keeps, for every connection: offered is a gap-free stretch of the log, and sent is the replay followed by the received items above it |
| Streams.SentAboveSince | internal/hub/handler.go:284-348 | exact condition, with any drops and any history, for sending nothing at or below since_seq |
| Streams.SentCountsExactly | internal/hub/handler.go:284-348 | exact condition for a gap-free stream on a connection, whatever was dropped, evicted, cleared or expired |
| Streams.CaughtUp | internal/hub/handler.go:328-347 | exactly which numbers a handler with its replay done and its queue empty has sent, with or without since_seq, whatever was dropped or missing |
| Streams.NothingHeldBack | internal/hub/handler.go:328-347 | covered, guarded and without a drop: all from since_seq to the last item offered |
| Streams.LiveCounts | internal/hub/handler.go:289-291 | without since_seq the stream counts on from the subscription if and only if no drop lies below something sent |
| Streams.NextItem | internal/agent/wsclient.go:64-76 | the next item lies above lastSeq if and only if the connection is Guarded, and is the very next number if and only if it is NextInLine |
| Streams.StepInv | internal/hub/hub.go:118-153 | every step, at any clock readings, keeps the whole invariant, the reconnecting client's included |
| Streams.StepTimed | internal/hub/hub.go:118-153 | ... and every step taken on time keeps expiry and coherence too |
| RunTheorems.MemoryAlwaysSane | internal/hub/hub.go:126-150 | in every run, at any clock readings, memory is falling, bounded, headed by current, and holds only items committed under their number or loaded |
| RunTheorems.MemoryAlwaysTidy | internal/hub/hub.go:126-150 | on a clock that never steps back it is tidy too, and twin-free when started on an empty table |
| RunTheorems.MemoryAlwaysCoherent | internal/hub/hub.go:238-258 | over any loadable table and with new items outliving pending deletes: a published item in memory has its identical row, and GetBySeq answers like the table, if and only if its own save did not fail |
| RunTheorems.CoherentOnTime | internal/hub/hub.go:238-258 | ... so always on a clock that never steps back |
| RunTheorems.TurnstileAlways | internal/hub/hub.go:305-332 | the turnstile results for every reachable state |
| RunTheorems.StreamAlwaysOrdered | internal/hub/handler.go:288-348 | in every run each connection sends strictly increasing numbers, each the item committed under it |
| RunTheorems.StreamResumesExactly | internal/hub/handler.go:284-348 | in every run, whatever is dropped: everything sent lies above since_seq if and only if Guarded or nothing sent |
| RunTheorems.StreamGapFreeExactly | internal/hub/handler.go:284-348 | in every run, with or without since_seq: gap-free if and only if the replay sent is and the live part follows on; with the gap covered, if and only if Guarded and nothing skipped, or nothing sent |
| RunTheorems.StreamCatchesUp | internal/hub/handler.go:284-348 | in every run a handler that has caught up has sent exactly the replay and, of what was published since the subscription, all above it but the drops |
| RunTheorems.PublishedSinceIsGuarded | internal/hub/handler.go:284-292 | a since_seq not above publishedSeq at the subscription meets the guard |
| RunTheorems.GuardStays | internal/hub/handler.go:284-348 | the guard, once met, holds for the rest of the run |
| RunTheorems.FanOutConserves | internal/hub/hub.go:316-321 | in every run: published while subscribed = received + queued + dropped, in publish order, at most 16 queued |
| RunTheorems.DropNeedsFullQueue | internal/hub/hub.go:316-321 | a step drops an item if and only if it is a send to a channel with 16 waiting |
| RunTheorems.UnsubscribeCuts | internal/hub/hub.go:280-284 | an unsubscribed channel is out of every later fan-out, at once or after the one going on |
| RunTheorems.UnsubscribedGetsNothing | internal/hub/hub.go:280-284 | over any run, an unsubscribed channel outside the fan-out going on is offered nothing more |
| RunTheorems.LeftSendsNothing | internal/hub/handler.go:312-347 | over any run, a connection whose handler has returned sends nothing more |
| RunTheorems.NeverFullLosesNothing | internal/hub/hub.go:316-321 | a run with at most 15 waiting at every send to a subscriber drops nothing of its |
| RunTheorems.ReadTakesHistory | internal/hub/handler.go:289-293 | a replay is exactly the history's items above since_seq, oldest first, and empty without since_seq |
| RunTheorems.DialAsksFromCursor | internal/agent/wsclient.go:48-52 | a client that has seen nothing asks for no replay and, over any run from there, is sent only what was published after its subscription; any other asks from the last number it saw |
| RunTheorems.DialsAgain | internal/agent/wsclient.go:27-46 | after a connection breaks the client can dial again, with the number and the items it had |
| RunTheorems.ReconnectsKeepOrder | internal/agent/wsclient.go:48-78 | over any number of reconnects in one hub run: strictly increasing and above the start if and only if always guarded; gap-free if and only if every item was NextInLine; lastSeq is the last received |
| RunTheorems.UnguardedReconnectRepeats | internal/hub/handler.go:289-336 | a run in which a connection asking for what follows item 1 is sent item 1 again |
| Persistence.SaveIsFresh | internal/hub/store.go:142-166 | the row a publisher saves lies above the mark, so nothing is replaced, and becomes the mark |
| Persistence.StepTable | internal/hub/store.go:142-183 | every step, at any clock readings, keeps the table loadable with its mark at the last save that succeeded |
| Persistence.StepCoherent | internal/hub/hub.go:305-332 | while memory is ahead of the pending deletes every step keeps it coherent with the table, racing clears included |
| Persistence.ExpireCoherent | internal/hub/hub.go:427-435 | a late delete keeps coherence if and only if everything in memory that was saved with success outlives it |
| Persistence.StepStore | internal/hub/store.go:142-176 | every step taken on time keeps rows expiring in the order of their numbers |
| Persistence.MemoryAnswersLikeTable | internal/hub/hub.go:238-258 | found in memory, a published item is what LoadItem would give if and only if its save did not fail |
| Restarts.StepSaves | internal/hub/store.go:142-166 | each step saves at most one key, above the mark and new to the table |
| Restarts.KeysNeverReused | internal/hub/store.go:219-233 | over any sequence of hub processes, with any settings and clocks, saved keys climb strictly and the loaded sequence number is the greatest ever saved |
| Restarts.LifetimeInv | internal/hub/hub.go:73-94 | every process of such a sequence keeps the invariant, so the results for all runs hold of each |
| Restarts.LifetimeTimed | internal/hub/hub.go:73-94 | ... and on one clock with no shorter ttl also the results about expiry, coherence and restarts |
| Restarts.ClearMirrors | internal/hub/hub.go:208-221 | a clear keeps memory mirroring the table if and only if nothing is left to save |
| Restarts.StepMirrors | internal/hub/hub.go:406-435 | memory is the newest maxHistory of what is unsaved and what outlives the deletes to come, kept by a step if and only if it is calm |
| Restarts.RestartGivesBack | internal/hub/store.go:75-96 | after a calm run stopped with no call in flight: same history, current and sequence number if and only if none of the newest rows is due to an outstanding delete |
| Restarts.ClearRaceLeavesRow | internal/hub/hub.go:208-221 | a clear that overtakes an in-flight save ends with empty memory and a row in the table |
| Restarts.ReusedExactly | internal/hub/hub.go:316-327 | after any run, a number is given out by some run of the next process if and only if it lies above the greatest saved |
| Restarts.CrashReusesDeliveredNumber | internal/hub/hub.go:316-327 | a run: delivered before saved, then after a crash the number is given to another clip |
| Tables.NewestFirstLists | internal/hub/store.go:81-94 | ORDER BY seq DESC lists each row once, in falling order |
| Tables.ListsUnique | internal/hub/store.go:81-94 | such a listing is unique |
| Tables.NewestFirstAdd | internal/hub/store.go:160-165 | a row saved above all others heads the listing |
| Tables.NewestFirstExpire | internal/hub/store.go:169-176 | deleting expired rows is filtering the listing |
| TableStore.Store.LoadSeq | internal/hub/store.go:219-233 | the mark, or the greatest key, or 0 |
| TableStore.Store.SaveItem | internal/hub/store.go:142-166 | insert or replace under the item's number, or the next free one for 0; the mark moves up |
| TableStore.Store.DeleteExpired | internal/hub/store.go:169-176 | exactly the rows whose printed expiry sorts before the printed bound go, the mark stays |
| TableStore.DeleteExpiredExact | internal/hub/store.go:169-176 | that is the delete by instant if and only if the offset is numeric or no row is ambiguous with the bound |
| TableStore.Store.DeleteAll | internal/hub/store.go:180-183 | the rows go, the mark stays |
| TableStore.Store.LoadItem | internal/hub/store.go:128-139 | the row under that number, in an array of its own |
| TableStore.Store.HistoryPage | internal/hub/store.go:100-125 | the newest rows below the bound, at most limit, newest first |
| TableStore.Store.LoadState | internal/hub/store.go:75-96 | the sequence number and the newest maxHistory rows |
| TableStore.BelowRows | internal/hub/store.go:103-108 | WHERE seq < ? before listing is cutting the listing |
| Items.CloneBytes | internal/hub/hub.go:391-396 | equal bytes in a new array, nil for empty |
| Items.CloneItems | internal/hub/hub.go:353-359 | equal items, each with an array no other has |
| HubClass.Hub.constructor | internal/hub/hub.go:60-98 | defaults, empty memory without a store, the loaded memory with one |
| HubClass.Hub.Load | internal/hub/hub.go:79-89 | history is the loaded slice and current points into it |
| HubClass.Hub.Put | internal/hub/hub.go:118-154 | refused if and only if current has the same MIME type and the digest of the selected payload: then nothing changes and the current item is returned; otherwise the next number, the input under it, the new memory, one clone per channel with room, the saved row; no array is shared with the caller, any channel or the hub |
| HubClass.Hub.Commit | internal/hub/hub.go:144-150 | the new item first, the history cut, current at the new item |
| HubClass.Hub.Publish | internal/hub/hub.go:311-331 | on its turn: fan-out, save, publishedSeq moves on |
| HubClass.Hub.FanOut | internal/hub/hub.go:316-321 | every channel gets a clone of its own unless 16 wait; nothing waiting anywhere shares an array with it |
| HubClass.Hub.Repeats | internal/hub/hub.go:119-131 | the duplicate test compares MIME type and digest of the selected payload with current |
| HubClass.Hub.Get | internal/hub/hub.go:157-161 | a copy of the current item, or nothing |
| HubClass.Hub.History | internal/hub/hub.go:164-172 | copies of the newest limit items, all for a limit out of range |
| HubClass.Hub.Since | internal/hub/hub.go:224-235 | copies of everything above the number, oldest first |
| HubClass.Hub.Recall | internal/hub/hub.go:238-251 | a copy of the item memory holds under the number: current, then the scan of the history |
| HubClass.Hub.GetBySeq | internal/hub/hub.go:238-258 | any item of the history by its number; only without one, the row of the table |
| HubClass.Hub.PageStart | internal/hub/hub.go:370-379 | the scan finds where the items below the cursor begin |
| HubClass.Hub.HistoryPageFromMemory | internal/hub/hub.go:366-389 | the same page a query over the same items would select |
| HubClass.Hub.HistoryPage | internal/hub/hub.go:176-204 | the page, its cursor and whether there is more, from table or memory |
| HubClass.Hub.Clear | internal/hub/hub.go:208-221 | memory and table emptied, the counter kept; nothing if the delete fails |
| HubClass.Hub.ReapExpired | internal/hub/hub.go:406-435 | the in-place reap is the filter on values, leaves an unexpired current intact even when it points into the array, and hands out the delete to be run later |
| HubClass.Hub.Compact | internal/hub/hub.go:416-425 | compaction over the array's own front equals the functional filter |
| HubClass.Hub.Subscribe | internal/hub/hub.go:261-278 | a new registered channel, empty |
| HubClass.Hub.Unsubscribe | internal/hub/hub.go:280-284 | that channel and no other is gone |
| HubClass.Hub.Receive | internal/hub/handler.go:333 | the oldest waiting item; its array is then reachable from no channel and not from the hub |
| HubClass.CallerWrites | internal/hub/hub.go:361-364 | writing to an array neither of the hub nor in a channel changes that byte, nothing the hub shows and nothing that waits |
| Callers.Serve | internal/hub/hub.go:345-396 | any request leaves hub and callers showing the next value, answers with its items and outcome, and keeps the callers' arrays all different |
| Callers.ServeAll | internal/hub/hub.go:118-154 | over any sequence of requests all answers and outcomes, and in the end hub, table, channels and callers' arrays, are those of the hub of values |
| Callers.Open | internal/hub/hub.go:60-98 | a new hub shows the loaded value, or the empty one |
| Callers.PutAnswers | internal/hub/hub.go:118-154 | a Put hands out the current clip, says stored exactly when a number was taken and repeated exactly when nothing changed, and puts the new clip where fewer than 16 wait |
| Callers.AnswersKeep | internal/hub/hub.go:345-396 | what callers write to some arrays changes no later answer and nothing else they can see, as long as these arrays are not passed to a Put |
| Cursors.ParseLimit | internal/hub/handler.go:412-426 | the limit is positive and capped, anything else refused |
| Cursors.CursorRoundTrip | internal/hub/handler.go:428-439 | every printed cursor is accepted as the same number |
| Cursors.SinceRoundTrip | internal/hub/handler.go:290-292 | the client's since_seq arrives as the number it was |
| Cursors.FormatSamples | internal/hub/hub.go:199-202 | what some cursors look like |
| Cursors.ParseUintExactly | internal/hub/handler.go:433 | exactly the decimal texts of numbers below 2^64, leading zeros allowed |
| Cursors.AtoiExactly | internal/hub/handler.go:415 | exactly the decimal texts of numbers of 64 bits, signed or not |
| Cursors.LimitExactly | internal/hub/handler.go:412-426 | the limit asked for or the fallback, cut to the maximum; a number that is not positive is refused |
| Cursors.CursorExactly | internal/hub/handler.go:428-439 | an absent cursor is no bound, a positive number is itself, all else is refused |
| Cursors.ReplayExactly | internal/hub/handler.go:290-292 | a replay is due exactly for a since_seq that parses |
| Paging.PageFacts | internal/hub/hub.go:181-203 | a page holds the newest items below its bound and all of them unless there is more, which hasMore says exactly; all it leaves out lies below its last item |
| Paging.CursorAccepted | internal/hub/hub.go:199-202 | NextCursor is accepted and names the page's last item |
| Paging.WalkFrom | internal/hub/handler.go:229-256 | the walk while items come and go: falling numbers, everything that stayed, nothing that was added |
| Paging.WalkEnds | internal/hub/hub.go:199-202 | however long cursors are followed: with more to come, all pages so far hold fewer items than lay below the start, so the walk ends |
| Paging.CursorsFall | internal/hub/hub.go:199-202 | each cursor is a smaller number than the one before |
| Paging.StepGrows | internal/hub/hub.go:118-153 | every hub step changes table and memory only in the way the walk can follow |
| Paging.HubWalk | internal/hub/handler.go:229-256 | the walk over a running hub, at any clock readings, with or without a store: its length, broken off or not, and what it returns when it ends |
| Endpoints.StreamHandler.CatchUp | internal/hub/handler.go:289-307 | sends the missed items up to a write failure and tracks the highest number |
| Endpoints.StreamHandler.Forward | internal/hub/handler.go:328-347 | sends the received items above the replay, up to a failed write |
| Endpoints.StreamHandler.Serve | internal/hub/handler.go:288-348 | what goes out is the beginning of what is due, all of it if no write fails |
| Endpoints.DueOnce | internal/hub/handler.go:288-348 | due is the replay and the live items above it: each number once, in order, nothing else |
| Endpoints.WSClient.Connect | internal/agent/wsclient.go:48-78 | asks from lastSeq, or for no replay when it is 0; delivers every update; lastSeq becomes the number of the last one |
| Endpoints.WSClient.Run | internal/agent/wsclient.go:27-46 | requests, waits and deliveries over any list of attempts |
| Endpoints.UpdatesJoin | internal/agent/wsclient.go:64-78 | every update of the messages, in their order, and nothing else |
| Endpoints.DeliveredJoin | internal/agent/wsclient.go:30-45 | attempt by attempt, nothing from a dial that failed |
| Endpoints.RequestParts | internal/agent/wsclient.go:50-52 | when deliveries ascend, each request parts them into what was had and what is to come |
| Endpoints.WaitAt | internal/agent/wsclient.go:28-44 | waits of 1, 2, 4, 8, 16, 32 and then 60 seconds, never reset |
| Monitor.OfferedOnceHandled | internal/agent/clipboard.go:38-79 | a poll offers exactly what the keys do not hide, again until handled, never after |
| Monitor.RecognisedIsSeen | internal/agent/clipboard.go:49-61 | what a poll recognises, as seen or as its own write, is committed as seen: no change at the next poll, whatever was written in between |
| Monitor.AppliedIsHidden | internal/agent/clipboard.go:89-121 | what an apply left on the clipboard is not offered, even if a pending send is marked in between |
| Monitor.FaultyApplyOffers | internal/agent/clipboard.go:92-116 | after a failed write or read-back, exactly when the next poll offers what is on the clipboard |
| Monitor.ClipboardMonitor.Poll | internal/agent/clipboard.go:38-69 | the four outcomes and, field by field, the keys after each |
| Monitor.ClipboardMonitor.MarkHandled | internal/agent/clipboard.go:74-84 | the pending key becomes the seen one |
| Monitor.ClipboardMonitor.ApplyRemote | internal/agent/clipboard.go:89-121 | keys after a failed write, a good read-back and a failed or empty one |
| Monitor.ClipboardMonitor.ClearLocal | internal/agent/clipboard.go:125-139 | keys reset, unless the clear fails |
| DesktopAgent.Agent.Tick | internal/agent/agent.go:127-150 | one tick of the poll loop, privacy decision and the put it sends included; nothing while paused or before the bootstrap |
| DesktopAgent.Agent.ApplyRemote | internal/agent/agent.go:199-214 | ignored while paused or when this node is the source; otherwise the content of a text clip, the data of any other, is written and its key recorded |
| DesktopAgent.Agent.SendToHub | internal/agent/agent.go:220-234 | text goes out as content, anything else as data, under this node's name |
| DesktopAgent.SentIsApplied | internal/agent/agent.go:220-285 | what one agent sends comes back as the same content from the clip the hub makes of it, and the key recorded for it is the clip's own hash and MIME type |
| DesktopAgent.AppliedIsRecorded | internal/agent/agent.go:280-285 | the same for the clips of any client |
| DesktopAgent.FleetPutIsHubPut | internal/hub/hub.go:126-150 | the fleet's hub refuses and commits exactly what the hub does |
| DesktopAgent.TickSettles | internal/agent/agent.go:134-147 | what was sent with success, or blocked and not cleared away, is not offered by the next tick that reads it |
| DesktopAgent.TickRetries | internal/agent/agent.go:143-147 | what failed to be sent is |
| DesktopAgent.Agent.Bootstrap | internal/agent/agent.go:153-197 | at most five attempts, ended by an answer or a cancelled context; only an answer is applied, polling may start in any case |
| DesktopAgent.RetryWaits | internal/agent/agent.go:153-179 | five attempts, with waits of 0.5, 1, 2, 4 and 5 seconds |
| DesktopAgent.TickIsFleetRun | internal/agent/agent.go:127-150 | any tick, failed readings included, leaves the keys and the hub that the fleet's actions leave |
| Fleet.ActKeepsInv | internal/agent/agent.go:127-150 | every action keeps what clipboards, keys and loops owe to what has been handled |
| Fleet.HandledAtMostOnce | internal/agent/clipboard.go:38-84 | over any run each clipboard state is sent with success or blocked at most once, a remote one never, and what is handled is not offered while it stays |
| Fleet.RejectedIsOfferedAgain | internal/agent/agent.go:143-147 | after a failed send the clip is offered again |
| Fleet.NoFeedbackLoop | internal/agent/clipboard.go:38-121 | over any run of any number of agents, with restarts and any hub at the start, the bound on committed clips |
| Fleet.FaultyApplyReturns | internal/agent/clipboard.go:92-116 | in a running fleet, for a fault at any point of the poll loop and anything that happens up to the next poll: exactly when that poll offers what it left |
| Fleet.MayReturnExactly | internal/agent/clipboard.go:92-116 | ... and by the very next poll of an idle loop, or of one that first marks what it has sent |
| Fleet.RecognisedStays | internal/agent/clipboard.go:49-61 | what a poll has recognised never comes back through a failed write that leaves it on the clipboard, whatever happens up to the next poll |
| Fleet.RestartOffers | internal/agent/clipboard.go:22-25 | a monitor that starts again offers what is on its clipboard, unless its key is the pair of empty strings |
| Fleet.ForgottenIsCommitted | internal/hub/hub.go:126-131 | after a clear, an expiry or a restart of the hub, a clip is refused exactly as a repeat of what the hub is left with |
| Fleet.FailedWriteEchoes | internal/agent/clipboard.go:92-99 | a run that reaches the bound through a failed write |
| Timestamps.NumericOffsetExact | internal/hub/store.go:169-170 | same numeric offset: text order is instant order |
| Timestamps.UtcExactUnlessAmbiguous | internal/hub/store.go:169-170 | printed with Z: text order is instant order exactly when not ambiguous |
| Timestamps.ErrorBelowOneSecond | internal/hub/store.go:169-170 | where they differ the instants are less than a second apart |
| Timestamps.UtcDeletesEarly | internal/hub/store.go:169-170 | two stamps on which the delete takes an unexpired row |
| Timestamps.DeleteTakesExpired | internal/hub/store.go:169-176 | the rows the statement takes against the rows that have expired |
| Timestamps.DaysBeforeYear | internal/hub/store.go:169-170 | days before a year in the Gregorian calendar |
| Timestamps.InstantSamples | internal/hub/store.go:169-170 | the epoch, leap days, and an offset, as instants |
| Timestamps.TextSamples | internal/hub/store.go:169-170 | what is printed with a trimmed fraction, with none, and with each form of zone |
| Checksums.WriteChecksums | internal/release/release.go:534-543 | prints one line per artifact |
| Checksums.PrintedJoin | internal/release/release.go:534-543 | line by line: the sum, two spaces, the name and a newline |
| Checksums.ParseChecksums | internal/release/package_managers.go:809-825 | the entries of the lines, or the first line without a double space |
| Checksums.SplitJoins | internal/release/package_managers.go:811 | the pieces hold no newline and make up the text again |
| Checksums.TrimExactly | internal/release/package_managers.go:811 | white space and nothing else is cut off both ends, and all of it |
| Checksums.LineExactly | internal/release/package_managers.go:812-822 | which lines are skipped, which refused, and a good one is cut at its first double space |
| Checksums.ValidateManifest | internal/release/package_managers.go:827-841 | accepted exactly when equal pointwise, otherwise the first difference |
| Checksums.RoundTripExactly | internal/release/release.go:642-662 | parsing what was printed gives the list back if and only if it is printable |
| Checksums.PublishThenVerify | internal/release/package_managers.go:353-359 | publishing then verifying succeeds exactly for a printable list |

## Left out

- HubClass.Hub.Put: runs its commit and its publishing without interleaving, so the wait for one's turn is a precondition of Publish; the interleavings are the subject of `Protocol`.
- HubClass.Hub.ReapExpired: hands back the instant for the goroutine that deletes expired rows instead of starting it; that delete is `TableStore.Store.DeleteExpired`, and its lateness is modelled in `Protocol`.
- TableStore.Store.DeleteExpired: compares stamps printed with one offset; a change of the local offset between save and delete is not modelled. `Protocol` deletes by instant.
- Sequence numbers are unbounded: wrap-around at 2^64, and the table's limit of 2^63, are out of reach and not modelled, except that cursors and since_seq are parsed with their 64-bit limit.
- A hub without a store is, in `Protocol`, one whose saves all fail on an empty table; `HubClass` has both forms.
- Finer interleavings inside ApplyRemote and ClearLocal, which release their lock around calls to the system clipboard: `Fleet` takes each monitor call as atomic.
- Fleet.NoFeedbackLoop: applies may bring any content at any time, a superset of what the stream delivers, so the source-name filter, pausing and the bootstrap gate are not needed there; they are modelled in `DesktopAgent`.
- The lazily created condition variable in publish: New always sets it.
- Convergence of all agents on the hub's current clip is not claimed: an agent ignores its own later item after applying an earlier remote one.
- HTTP, WebSocket framing, JSON, logging, metrics, discovery, tsnet and command lines: plumbing without state of its own.
- SQL text, WAL and the legacy migration: the table is abstract, with AUTOINCREMENT as its specification.
- Clipboard backends, foreground-application detection and the privacy patterns: any answer is allowed.
- Building archives, package-manager manifests, release notes and the iOS companion: only easy claims.
