# A model of the recorder, bus, API and archive of `tape`

The program records order books from an exchange, republishes them on a lossy bus, serves them to
viewers, and bakes the recording into an archive that can be replayed. Each stage promises that a copy
of a book is never silently wrong. This project states those promises over whole runs and proves them
with Dafny 4.11; `dafny verify dfyconfig.toml` checks everything.

How the modules fit together:

- `OrderBook` (Book.dfy) is the shared state machine: two dictionaries, cached best prices, a stale
  flag, and keyframes of many books. Every other module about books speaks of its values.
- `Bus`, `Live` and `Hub` follow a book from the publisher to a viewer. `Bus` is a run of publisher
  steps, losses, restarts and deliveries against the consumer rule of `LiveBooks`; `Live` adds the
  bounded session queue with its resynchronization and a client that folds what it is sent; `Hub`
  holds the two mutable objects. `Live.ViewerIsSound` is the end of that chain.
- `Planner`, `Assignment`, `Subscription`, `Feed` and `Supervisor` are the recorder's connection.
  `Planner` compares and splits plans; `Subscription` gives the lock-held sections as transitions;
  `Feed` adds frames, sequence checking and books, and proves what every run keeps; `Hazards` gives
  the runs on which its assumptions are needed; `Supervisor` is the object those transitions describe.
  `Changes` says which plan changes are made and that no market both plans have is ever unsubscribed;
  `Exchange` obeys the commands sent and shows that the exchange then carries what is recorded; `Resync`
  says which snapshots are asked for again.
- `Universe` chooses the markets to record: one copy of each ticker, the filters, the groups in turn
  with their caps and pins, and a reason for every market left out. `Ranking` says what its orders mean
  in the markets' own prices, volumes and times, and `Admission` what the decision says of each market.
- `Tap` and `Audit` record a window of a book's life and search it for a REST book; `Tapped` puts the
  tap on a live connection, so that an audit's verdict is about the books the connection really held.
- `Segment` and `Sink` carry records to disk. `Interpret` says what a segment of records means: its
  counts, rows, book time, gaps and spans; `Interpreter` holds the two objects that work it out record
  by record, and `Ledger` states what they keep on the records alone. `Spill`, `Archive`, `Replay` and
  `Uptime` turn rows into parts, decide what may be deleted, read them back, and measure the day;
  `Parting` says which buckets share a part; `Baked` closes the circle from an hour's records to the
  replayed books.
- `RateLimit` (TokenBucket.dfy) is the client's token bucket; `Counts` holds dictionaries of counts and
  `Prelude` shared vocabulary.

The source's objects that change in place are classes here, proved against functions on values;
theorems about runs are stated on those functions. Where the source raises an error the model returns
`None` or `false`.

Some promises turn out to hold only with a condition, and each is stated as found:

- Keyframes load back exactly when no book among them is crossed; a book that a delta left crossed
  keeps its crossed levels, stale, and its keyframe is refused (`OrderBook.KeyframesRoundTrip`,
  `OrderBook.CrossedKeyframeDoesNotLoad`).
- A lag can discard a queued `subscribed` reply. A client then still shows a market it left. If it
  subscribes to that market again while the hub holds no copy of it, and only then, it goes on showing
  the old book until the hub holds one again or the next lag (`Live.SubscriptionAgreesIff`,
  `Live.ViewerIsSound`, `Live.LostReplyLeavesOldBook`).
- A snapshot that is awaited resets its sid's baseline at whatever number it carries, so frames lost
  just before it go unnoticed by the other fresh books, exactly when the number is not the next one
  (`Feed.AwaitedSnapshotHidesLoss`, `Hazards.LossGoesUnseen`). A snapshot frame repeated with an old
  number is reported as a duplicate and then applied; the book follows its frames from there exactly
  when the number is the baseline itself (`Feed.RepeatedSnapshotRevives`,
  `Hazards.RepeatPutsBackOldLevels`). `Feed.BooksFollowTheirFrames` says what holds otherwise.
- A reply can move a group's only sid to another group unless sids keep their channel
  (`Subscription.AnswerKeepsReachable`, `Hazards.ReplyStrandsGroup`).
- A merge reply on one of a group's channels is believed of all of them. The exchange carries on every
  sid what the connection believes exactly when the reply reports nothing new or the group has no other
  sid; otherwise the other sid can stay without the added markets for good (`Exchange.OkMirrorsIff`,
  `Hazards.MergeLeavesOtherSid`).
- A wait told by the token bucket suffices exactly when the clock reads no less than it had
  (`RateLimit.WaitSufficesIff`).
- Stale market time stays within observed market time while the wall clock does not go back
  (`Interpret.StaleWithinObserved`, `Interpret.ClockBackStalesMore`).
- What is decided, reason counts included, depends on the order of the listing exactly when two freshest
  copies of an open market tie, one with no close time and one closing at -1, which the tie-breaking reads
  as none (`Universe.OrderDecidesIff`); a group may then record the market in one order and not in the other
  (`Universe.OrderAdmits`). The comment beside the tie-breaking calls it total. An empty strike type ties
  with none in the same way and changes only the copy carried (`Universe.OrderShowsInDecisionIff`).
- Every applied group keeps its caps. A pinned one is held neither to its counts nor to its horizon
  (`Universe.PinsExceedCounts`, `Universe.PinsExceedHorizon`); it keeps the counts exactly
  when there is room for each open pin in turn, and the horizon exactly when the event of each shows a market
  closing within it (`Universe.PinnedKeepsCountsIff`, `Universe.PinnedKeepsHorizonIff`). Pins taken from
  what the group admitted before keep the counts while no market changes its event
  (`Universe.RepinnedKeepsCounts`), and the horizon unless the early market of an event has gone (`Universe.RepinnedKeepsHorizon`,
  `Universe.RepinnedLosesHorizon`).
- A replay across restarts of the host gives the runs one after another when the wall clock tells the
  boots apart (`Replay.ReplayRestoresEveryBoot`).

## Model

| member | source | states |
|---|---|---|
| `OrderBook.Book.ApplySnapshot` | src/tape/book/book.py:100-128 | a snapshot replaces every level and makes the book fresh exactly when both sides list positive counts at distinct prices and do not cross; otherwise the levels stay and the book is stale; cached bests are the true extremes either way |
| `OrderBook.Book.ApplyDelta` | src/tape/book/book.py:130-169 | a stale book ignores it; a count that would be negative leaves the levels, a crossing result keeps them moved, and both leave the book stale; otherwise one level moves, a zero count removing it; cached bests stay exact also when it raises |
| `OrderBook.Book.SetLevel` | src/tape/book/book.py:145-160 | after one level changes, each cached best is again the extreme of its side, whether the best was raised, removed or untouched |
| `OrderBook.Book.Collect` | src/tape/book/book.py:257-269 | a level list is accepted exactly when counts are positive and prices distinct, and then means the map of its levels |
| `OrderBook.Book.MarkStale` | src/tape/book/book.py:171-175 | levels and cached bests stay, freshness goes |
| `OrderBook.CrossedMeans` | src/tape/book/book.py:115-121 | the crossed test on the two extremes says exactly that some bid is at or above some ask |
| `OrderBook.TransitionsKeepWellFormed` | src/tape/book/book.py:84-175 | every transition keeps counts positive and a fresh book uncrossed |
| `OrderBook.SameLevelsSameMap` | src/tape/book/book.py:257-269 | two accepted lists of the same levels in any order mean the same side |
| `Bus.SequencedPublisher.Publish` | src/tape/bus/envelope.py:181-199 | a number is spent on every attempt, whether or not the transport took the message |
| `Bus.EveryChangeIsReportedOnce` | src/tape/bus/livebooks.py:200-221 | read in order, the changes of one observation take each market from the status it had to the status it has, and none of them is a non-change |
| `Bus.LinkKeepsCoherent` | src/tape/bus/livebooks.py:242-288 | if a copy was sound against the publisher at the previous message it is sound at this one after applying it |
| `Bus.StepKeepsInvariant` | src/tape/bus/livebooks.py:200-288 | every publisher step, loss, delivery and restart keeps numbering, linkage between messages, and soundness of the copies |
| `Bus.CopiesAreSound` | src/tape/bus/livebooks.py:223-288 | for every publisher run, loss pattern and restart under new epochs: a copy held stale is not fresh at the publisher, and where both are fresh the levels are equal, as of the last message observed and as of now when none is outstanding |
| `Bus.DeliveredRefreshAgrees` | src/tape/recorder/recorder.py:1165-1190 | on every run an image delivered over a fresh copy, itself fresh and without a reset, changes no level |
| `Bus.ImageSettlesCopy` | src/tape/bus/livebooks.py:253-266 | the next image of a market sets its copy to exactly the published book, or drops it when the image is crossed; a silently stale book never stays fresh past it |
| `Bus.LiveBooks.Follow` | src/tape/bus/livebooks.py:223-240 | a reset exactly at the start, at another epoch or at a number that does not follow, with the number of messages missed |
| `Bus.LiveBooks.Adopt` | src/tape/bus/livebooks.py:253-266 | an image becomes the copy with its stale flag, or drops the copy when no book can hold it |
| `Bus.LiveBooks.Change` | src/tape/bus/livebooks.py:268-288 | a snapshot or delta changes a held copy only; one that breaks it drops it |
| `Live.QueueStaysBounded` | src/tape/api/session.py:179-240 | after a lag the queue holds at most the replies of the offer and two messages per subscription; otherwise at most queue_max |
| `Live.ChangeReachesClient` | src/tape/api/hub.py:348-374 | the message sent for a status change brings the client from any old status to the new one |
| `Live.JudgeIsFair` | src/tape/api/hub.py:243-279 | accepted and rejected tickers partition the request, within the limit, accepted ones known and distinct |
| `Live.LagReachesClient` | src/tape/api/session.py:219-240 | after a lag the client agrees with the hub about everything it follows, whatever was discarded; it shows nothing else exactly when the surviving replies leave it so |
| `Hub.ClientSession.Close` | src/tape/api/session.py:195-205 | the first close code stays and the queue is emptied |
| `Hub.LiveHub.Subscribe` | src/tape/api/hub.py:243-279 | a subscription is judged, the follower table and the session's own list stay mirror images, and the reply with new snapshots is offered |
| `Hub.LiveHub.Detach` | src/tape/api/hub.py:224-232 | a detached session is nobody's follower any more and the others are untouched |
| `Hub.LiveHub.Admit` | src/tape/api/hub.py:198-222 | a session is admitted exactly while the hub is below its client limit, with only the hello queued |
| `Hub.LiveHub.Gather` | src/tape/api/hub.py:348-374 | every session is owed the messages of its markets, gathered before any is offered |
| `Hub.LiveHub.ChangeToSend` | src/tape/api/hub.py:376-404 | which message one status change sends, and whether it is the market's snapshot |
| `Subscription.PiecesLeadToDesired` | src/tape/recorder/supervisor.py:956-970 | the pieces of the plan change fit the applied group one after another, removals first, and end at the desired group |
| `Subscription.PiecesAreSendable` | src/tape/recorder/supervisor.py:956-970 | each piece finds the sids it needs, names few enough markets, and is not about a group awaiting its own subscribe |
| `Subscription.PiecesEnd` | src/tape/recorder/supervisor.py:956-970 | the loop either applies every piece or stops, deferred, with a subscribe unanswered |
| `Subscription.ReconcileRuns` | src/tape/recorder/supervisor.py:929-970 | a reconciliation with nothing pending reaches the desired group or is deferred behind a pending subscribe |
| `Subscription.ResumeKeeps` | src/tape/recorder/supervisor.py:1196-1200 | a deferred reconciliation runs once nothing is pending, and is never left deferred with nothing pending |
| `Subscription.AnswerKeeps` | src/tape/recorder/supervisor.py:1071-1080 | binding a sid keeps every group reachable when replies name a channel of their command and a sid keeps its channel |
| `Subscription.AnswerKeepsReachable` | src/tape/recorder/supervisor.py:1071-1080 | without that promise: the applied group stays reachable if and only if the reply does not move its only sid to another group while it awaits nothing |
| `Subscription.HearOkKeeps` | src/tape/recorder/supervisor.py:1098-1156 | a merge answers its channel and adopts the membership, and a membership that differs always leaves a reconciliation due |
| `Subscription.HearErrorKeeps` | src/tape/recorder/supervisor.py:1162-1194 | a refused subscribe leaves either a group that has a sid or no group at all |
| `Feed.ProtocolIsSound` | src/tape/recorder/supervisor.py:929-1200 | on every run of a connection: deferred implies a pending subscribe; with no set_group on its way and nothing pending, applied equals desired or an error frame refused the subscribe; an applied group has a sid or awaits one |
| `Feed.FrameKeepsSync` | src/tape/recorder/supervisor.py:699-882 | one frame of any kind keeps every fresh book equal to its frames: a skipped or repeated number makes the connection's books stale first |
| `Feed.RunGoesOn` | src/tape/recorder/gaps.py:99-133 | a frame judged in order, or a first one that continues the run, lengthens a contiguous run of numbers |
| `Feed.RunRetains` | src/tape/recorder/supervisor.py:976-1023 | changing membership never makes a book fresh nor leaves a fresh book outside the live group |
| `Feed.AnswerKeepsOneSid` | src/tape/recorder/supervisor.py:1071-1080 | at most one live sid ever carries books |
| `Supervisor.GapTracker.Observe` | src/tape/recorder/gaps.py:99-133 | verdict, new baseline and counters of every case; other sids untouched |
| `Supervisor.GapTracker.Reset` | src/tape/recorder/gaps.py:135-147 | the baseline goes, the counters stay |
| `Supervisor.GapTracker.Forget` | src/tape/recorder/gaps.py:149-157 | everything known of the sid goes |
| `Supervisor.ConnectionSupervisor.RecordChange` | src/tape/recorder/supervisor.py:976-1000 | the applied group, sids and books after a change went out |
| `Supervisor.ConnectionSupervisor.Track` | src/tape/recorder/supervisor.py:715-730 | baseline reset, verdict and resynchronization of a frame before its dispatch |
| `Supervisor.ConnectionSupervisor.ResyncConnection` | src/tape/recorder/supervisor.py:807-833 | every book of the connection goes stale and snapshots are requested for all of its markets |
| `Supervisor.ConnectionSupervisor.RequestSnapshot` | src/tape/recorder/supervisor.py:903-917 | only markets not already awaiting one on the sid are asked for, in order |
| `Supervisor.ConnectionSupervisor.OnSubscribed` | src/tape/recorder/supervisor.py:1082-1096 | a subscribed reply binds its sid and resumes what was deferred |
| `Supervisor.ConnectionSupervisor.OnOk` | src/tape/recorder/supervisor.py:1098-1126 | a merge reply, or nothing when it cannot be one |
| `Supervisor.ConnectionSupervisor.OnError` | src/tape/recorder/supervisor.py:1162-1194 | an error frame's effect on awaited snapshots, the firehose and the applied group |
| `Supervisor.ConnectionSupervisor.SetGroupLocked` | src/tape/recorder/supervisor.py:497-508 | reconciliation and then pruning of books nobody wants |
| `Supervisor.ReleaseEach` | src/tape/recorder/supervisor.py:1014-1023 | released books still wanted go stale, the others are dropped, all others untouched |
| `Planner.ComputeDiff` | src/tape/recorder/planner.py:277-315 | the loops compute the four phases of the difference: shrink, remove, add, grow |
| `Planner.DiffIsSafe` | src/tape/recorder/planner.py:277-315 | applied one by one the changes pass only through valid plans, over no cap both ends respect, and end exactly at the desired plan |
| `Planner.SplitMeansTheSame` | src/tape/recorder/planner.py:336-374 | replacing a change by its pieces gives the same plan |
| `Planner.AllPiecesAreSmall` | src/tape/recorder/planner.py:336-374 | no piece names more markets than the limit |
| `Planner.PiecesAreSafe` | src/tape/recorder/planner.py:277-374 | the same safety piece by piece, naming only groups that exist and adding only groups that do not |
| `Planner.PiecesStayWithin` | src/tape/recorder/planner.py:277-374 | before the first addition nothing is held that was not held before, afterwards nothing that is not wanted |
| `Planner.PiecesInOrder` | src/tape/recorder/planner.py:290-315 | removals come before additions |
| `Planner.SplitChanges` | src/tape/recorder/planner.py:336-374 | the pieces are computed as specified |
| `Assignment.CarryOver` | src/tape/recorder/planner.py:169-195 | every still wanted market stays on its connection unless that is gone or over the cap |
| `Assignment.PopLeast` | src/tape/recorder/planner.py:198-224 | the heap yields the least loaded connection, lowest on a tie |
| `Assignment.Fill` | src/tape/recorder/planner.py:198-224 | markets go in order to the least loaded connection with room until none has room |
| `Tap.WindowIsWholeIff` | src/tape/recorder/tap.py:199-293 | a window has no fault if and only if the same book was fresh from opening to closing and at most max_events changes took effect; the no_book fault exactly when none was fresh at opening |
| `Tap.WindowReplaysTheBook` | src/tape/recorder/tap.py:12-20 | at every moment of a faultless window the live book was the replay of the events recorded so far |
| `Tap.EveryReplayedStateWasHeld` | src/tape/recorder/tap.py:12-20 | and every state the replay passes through was held at some moment |
| `Tap.NothingMissed` | src/tape/recorder/tap.py:243-262 | while no fault is noted nothing that took effect is missing from the recording |
| `Tap.LiveBookTap.Record` | src/tape/recorder/tap.py:243-262 | only the changed market's recording changes, by the first matching rule |
| `Tap.LiveBookTap.Close` | src/tape/recorder/tap.py:264-293 | the first close makes the windows and releases everything; later ones return the same |
| `Audit.ClassifyWindow` | src/tape/recorder/auditor.py:251-312 | the two loops with their cut-off give what a search of every state gives: exact iff the state at the reply matches, else the nearest match, the earlier on a tie, else inconsistent; for any checksum that is a function of the levels |
| `Audit.CutOffLosesNothing` | src/tape/recorder/auditor.py:301-304 | no state beyond 2 * reply - nearest - 1 can be a nearer match |
| `Audit.SameLevels` | src/tape/recorder/auditor.py:339-348 | two books match exactly when their levels are equal, whatever the checksum |
| `Audit.CountReceived` | src/tape/recorder/auditor.py:315-322 | the leading events received at or before the reply, and no more |
| `Audit.OneVerdict` | src/tape/recorder/auditor.py:251-312 | the specification allows one verdict only |
| `Audit.LiveWindowsReplay` | src/tape/recorder/auditor.py:251-312 | every window of a live tap without a fault replays without error, through states the live book held |
| `Uptime.Union` | src/tape/bake/manifest.py:746-753 | sorted, disjoint, and the same instants as any input |
| `Uptime.ClipCovers` | src/tape/bake/manifest.py:756-759 | exactly the instants inside the bounds |
| `Uptime.LengthIsMeasure` | src/tape/bake/manifest.py:762-763 | the length of disjoint intervals is the number of instants they cover |
| `Uptime.Overlap` | src/tape/bake/manifest.py:766-779 | the two-pointer walk counts the instants covered by both lists |
| `Uptime.JoinSpans` | src/tape/bake/manifest.py:723-743 | a connection was open inside its spans and between a span left open and a next one that continues it, and at no other instant |
| `Uptime.JoinedSpans` | src/tape/bake/manifest.py:723-743 | the same over all connections |
| `Uptime.SecondsRecording` | src/tape/bake/manifest.py:650-675 | whole seconds of the instants of the day that were taped and not slept through; between 0 and 86400 |
| `Spill.PlanIsExact` | src/tape/bake/spill.py:91-129 | no part is empty or over the bound, and of any kind of rows there are as many in the parts as in the buckets |
| `Spill.PlanParts` | src/tape/bake/spill.py:91-129 | the loop lays buckets out as specified |
| `Spill.SpillRows` | src/tape/bake/spill.py:234-267 | one batch per bucket that has rows, in the order of adding, counted |
| `Spill.Gather` | src/tape/bake/spill.py:302-319 | the intersections of batches and ranges, in spill order |
| `Spill.GatheredTally` | src/tape/bake/spill.py:302-319 | slicing batches gives each range exactly its rows, however the rows were batched |
| `Spill.PartIsTheSame` | src/tape/bake/spill.py:275-300 | what is read back for a part sorts to the same part for every batching |
| `Spill.PartsHoldEveryRow` | src/tape/bake/spill.py:192-223 | every row is in the parts as often as it was added |
| `Spill.PartsAreSortedAndBounded` | src/tape/bake/spill.py:192-223 | each part is nonempty, within the bound, sorted by key with ties in the order of adding |
| `Spill.SortingIsUnique` | src/tape/bake/spill.py:288-296 | there is only one sorted arrangement of the same rows |
| `Spill.TableWriter.Add` | src/tape/bake/spill.py:176-190 | a row joins the rows added, the buffer stays below flush_rows, and a finished writer refuses it |
| `Spill.TableWriter.Finish` | src/tape/bake/spill.py:192-223 | the parts depend on the rows, the hash and the bound alone, not on flush_rows |
| `Archive.LazyHashingAgrees` | src/tape/bake/prune.py:236-293 | hashing on demand finds an hour prunable exactly when hashing everything would, and every segment of a prunable hour carries its hash |
| `Archive.WithHourKeeps` | src/tape/bake/manifest.py:538-589 | re-recording an hour touches no other hour and no pruned entry, and fails on an hour with one |
| `Archive.WithPrunedKeeps` | src/tape/bake/manifest.py:592-616 | recording pruned segments keeps the manifest valid and earlier records first |
| `Archive.StepIsSafe` | src/tape/bake/prune.py:343-374 | every step of bake, record, survey, prune, unlink, crash and restart keeps the archive safe |
| `Archive.NothingIsLost` | src/tape/bake/prune.py:343-374 | whatever was unlinked stays on record and its baked parts stay complete |
| `Archive.PrunedHourIsFrozen` | src/tape/bake/bake.py:119-240 | once an hour has a pruned segment no later step rewrites its parts or its manifest entries |
| `Archive.PruningResumes` | src/tape/bake/prune.py:343-374 | after a crash between recording and unlinking the hour is still prunable |
| `Replay.RowsRoundTrip` | src/tape/bake/interpret.py:625-647 | the rows of a snapshot, an empty book's too, give it back |
| `Replay.RegroupedAreTheRun` | src/tape/store/catalog.py:399-430 | rows in any order regroup to snapshots of the run and no others |
| `Replay.ShuffledSnapshot` | src/tape/store/catalog.py:350-369 | a book takes a snapshot's levels in any order alike, valid or not |
| `Replay.InOrderIsSorted` | src/tape/store/catalog.py:332-347 | events are applied by monotonic time, a gap before the frame that revealed it |
| `Segment.PackRoundTrip` | src/tape/segment/segment.py:135-143 | a little-endian field survives if and only if it is in range |
| `Segment.TruncatedRoundTrip` | src/tape/segment/segment.py:205-228 | cut anywhere, the bytes parse to exactly the records wholly before the cut |
| `Segment.WholeIs` | src/tape/segment/segment.py:205-228 | how many records lie wholly before a cut |
| `Segment.SegmentWriter.Append` | src/tape/segment/segment.py:124-144 | header and payload go out, or the record is refused and nothing does |
| `Sink.SegmentSink.Put` | src/tape/recorder/writer.py:297-325 | a record is accepted exactly when open and below the bound; accepted ones leave in order and every enqueue fits |
| `Sink.SegmentSink.RequestRotation` | src/tape/recorder/writer.py:327-344 | a rotation stands, or waits, exactly between the records it was requested between |
| `Sink.SegmentSink.Close` | src/tape/recorder/writer.py:346-373 | after closing, the counts in the notices sum exactly to the queue-full refusals |
| `Sink.SegmentSink.Get` | src/tape/recorder/writer.py:410-437 | the writer takes items in the order they were queued |
| `Sink.RotatesSnoc` | src/tape/recorder/writer.py:327-344 | where rotations stand among records when one more item is queued |
| `RateLimit.GrantsAreBounded` | src/tape/client/ratelimit.py:89-136 | between two moments of any run tokens granted are at most capacity plus refill times elapsed, exactly in billionths |
| `RateLimit.WaitIsExact` | src/tape/client/ratelimit.py:107-119 | with a clock that reads no less than before, waiting as told makes the take succeed and one nanosecond less makes it fail |
| `RateLimit.WaitSufficesIff` | src/tape/client/ratelimit.py:107-136 | a wait of at least one nanosecond suffices if and only if the clock read no less than it had before |
| `RateLimit.BackwardsChangesNothing` | src/tape/client/ratelimit.py:127-136 | a clock going backwards neither adds nor removes tokens |
| `RateLimit.TokenBucket.TryTake` | src/tape/client/ratelimit.py:89-105 | taken exactly when affordable after refilling; an impossible request is refused |
| `RateLimit.TokenBucket.WaitNs` | src/tape/client/ratelimit.py:107-119 | the shortfall over the rate, rounded up |
| `OrderBook.BooksFromKeyframeRows` | src/tape/book/book.py:313-342 | rows of any tickers in any order: the load fails exactly when the rows of some ticker make no book, and otherwise holds exactly the tickers listed, each loaded from its own rows |
| `OrderBook.CrossedKeyframeDoesNotLoad` | src/tape/book/book.py:313-342 | a book a delta left crossed, two calls after it was new: its own keyframe does not load |
| `Live.BatchReachesClient` | src/tape/api/hub.py:348-404 | one bus message, read to the end of what it sends a session, keeps a client agreeing with the hub about every market the session follows |
| `Live.BatchReachesOne` | src/tape/api/hub.py:348-404 | market by market: agreement about one followed market survives a bus message whatever the client shows of the others |
| `Live.BatchFindsOne` | src/tape/api/hub.py:348-404 | a followed market the hub holds no copy of agrees as soon as a message gives it one; until then the client goes on showing it or not, as it did |
| `Live.SubscribeReachesClient` | src/tape/api/hub.py:243-299 | a subscription read to its end leaves a client showing only accepted markets, and agreeing if it agreed and showed nothing it did not follow |
| `Live.SubscriptionOutcome` | src/tape/api/hub.py:243-299 | for each accepted market exactly when the client agrees afterwards: a market kept agrees if it did, a new one unless the client shows it and the hub holds no copy |
| `Live.SubscriptionAgreesIff` | src/tape/api/hub.py:243-299 | a client that agrees still agrees after a subscription if and only if every market it adds and already shows is one the hub holds |
| `Live.LagOutcome` | src/tape/api/session.py:219-240 | a lag restores agreement about every followed market whatever was discarded; without a subscribed reply in the offer it shows nothing else exactly when what it was sent before showed nothing else |
| `Live.PathKeepsInvariant` | src/tape/api/hub.py:348-404 | on every run end to end the client will agree with the hub about each followed market but the lingering ones, which it shows and the hub does not hold; no lag that lost a reply, none lingers |
| `Live.ViewerIsSound` | src/tape/api/hub.py:348-404 | for every run: a client that reads everything queued shows the hub's status of a followed market, and its exact levels when fresh, if and only if the market does not linger; with nothing in flight and both fresh, the publisher's levels |
| `Live.LostReplyLeavesOldBook` | src/tape/api/session.py:219-240 | a market can linger: for every queue bound of two or more, a run from the start in which a lag discards a queued subscribed reply, the hub loses its copy, and the market, subscribed again, shows its old book |
| `Feed.EverySendIsSound` | src/tape/recorder/supervisor.py:929-970 | on every run, every plan change sent after the first goes in pieces within the market limit, with sid lookups that succeed and no update of a group whose subscribe is pending |
| `Feed.FirstSendIsSound` | src/tape/recorder/supervisor.py:929-970 | the same of the first reconciliation of a new connection, which is what opening it sends |
| `Feed.BooksFollowTheirFrames` | src/tape/recorder/supervisor.py:699-882 | on every run, a fresh book with a history equals its last snapshot and exactly its market's deltas, among frames numbered contiguously on one live sid |
| `Feed.AwaitedSnapshotHidesLoss` | src/tape/recorder/supervisor.py:715-722 | while a snapshot is awaited any number is accepted and fresh books of the sid stay as they are; the other books' histories go on if and only if the snapshot's number is the next one |
| `Feed.HistoryEndsIff` | src/tape/recorder/supervisor.py:699-882 | a frame that leaves the book fresh ends its history exactly when the frame is not the next in number, so no history is dropped that still holds |
| `Feed.SnapshotBeginsIff` | src/tape/recorder/supervisor.py:842-861 | a snapshot taken makes its book fresh, and begins a history exactly when its number becomes or equals the baseline |
| `Feed.RepeatedSnapshotRevives` | src/tape/recorder/supervisor.py:723-861 | a snapshot with an old number is applied all the same and its book fresh; the book follows its frames from there if and only if the number is the baseline itself |
| `Hazards.ReplyStrandsGroup` | src/tape/recorder/supervisor.py:1071-1080 | a run for every valid group in which a reply names the applied group's only sid for another pending command, and the applied group is left with no sid and no subscribe under way |
| `Hazards.LossGoesUnseen` | src/tape/recorder/supervisor.py:715-722 | two runs, with and without one delta that changes a market, each ending with an awaited snapshot of another market: both end fresh with the same baseline and different levels |
| `Hazards.RepeatPutsBackOldLevels` | src/tape/recorder/supervisor.py:723-861 | a run in which a snapshot frame comes again after a later delta and the book is fresh with its old levels |
| `Archive.UnlinkIsRecorded` | src/tape/bake/prune.py:343-374 | on every run with crashes anywhere, also between the two renames of a table and between the hours of a survey, a segment is unlinked only when the manifest on disk records it as pruned with its size and hash and every part baked from its hour is on disk |
| `Replay.SnapshotEvents` | src/tape/store/catalog.py:399-430 | rows in any order, sorted by their key: one event per snapshot, holding that snapshot's rows and no others |
| `Replay.Stretches` | src/tape/store/catalog.py:332-345 | the loop's stretch numbers start at nought, rise by one exactly where a monotonic reading falls further than the limit below one of the current stretch, and no reading within a stretch does |
| `Segment.SegmentReader.Fill` | src/tape/segment/segment.py:245-273 | a chunk moves to the buffer, or the input has ended; an unfinished frame sets truncated, a broken frame or bytes after a frame set damaged, and nothing else does |
| `Segment.SegmentReader.Next` | src/tape/segment/segment.py:205-228 | the next record, a stop with the truncated flag set exactly when bytes are left or the frame is unfinished and damaged exactly when the frame is broken or trailed by bytes, or corruption |
| `Segment.SegmentReader.ReadAll` | src/tape/segment/segment.py:205-280 | for every chunking the reader gives what parsing the bytes in one go gives, and says exactly how the input ended |
| `Interpret.CountsAreExact` | src/tape/bake/interpret.py:485-503 | each counter is the number of records of that kind, or with that outcome |
| `Interpret.RecordsBalance` | src/tape/bake/interpret.py:485-567 | records read are exactly those baked, those not baked and the decode failures |
| `Interpret.SamplesAreTheFirst` | src/tape/bake/interpret.py:403-413 | the samples kept of a failure class are its first five failures in reading order |
| `Interpret.HeldSidsCarryBooks` | src/tape/bake/interpret.py:746-775 | every market held is on a subscription seen to carry books, so the test before staling passes over no book |
| `Interpret.RowsAreMeant` | src/tape/bake/interpret.py:485-521 | every record has exactly the rows it means: none for one that did not decode or is not baked, one for a delta, trade, lifecycle message or audit, the cells of a snapshot, and exactly one for a decoded gap, resolved at the snapshot of its last waiting market or unresolved |
| `Interpret.SegmentRowsWithin` | src/tape/bake/interpret.py:399-401 | no row comes from anywhere but a record of the segment |
| `Interpret.HourRowsAreMeant` | src/tape/bake/interpret.py:299-329 | over all segments of an hour too, each record of each has exactly the rows it means |
| `Interpret.ResolvedWhen` | src/tape/bake/interpret.py:853-863 | a gap is resolved at a time exactly when the record received then left none of its markets waiting |
| `Interpret.ReasonByHistory` | src/tape/bake/interpret.py:649-662 | a snapshot counts as a resynchronization exactly when an earlier record of the segment brought or asked for one of the market on its subscription; else as a reconnect exactly when the segment opens a connection after a lost one |
| `Interpret.TimeIsMeasured` | src/tape/bake/interpret.py:836-851 | with wall times that do not fall, the two sums are the time markets were followed and the time their books were stale |
| `Interpret.StaleWithinObserved` | src/tape/bake/interpret.py:836-851 | with wall times that do not fall, stale market time never exceeds observed market time |
| `Interpret.ClockBackStalesMore` | src/tape/bake/interpret.py:625-647 | a clock set back can break that: ten nanoseconds stale, none observed |
| `Interpret.SpansSayWhenOpen` | src/tape/bake/interpret.py:809-879 | a segment's spans cover exactly the instants at which its connection was open |
| `Interpret.FactsAreCounted` | src/tape/bake/interpret.py:423-441 | gaps and audits counted are the records baked as such |
| `Interpreter.SegmentAdds` | src/tape/bake/interpret.py:299-329 | what reading a segment adds to the hour: its rows, every record counted, samples, book time, spans and facts |
| `Interpreter.HourInterpreter.ReadSegment` | src/tape/bake/interpret.py:299-329 | the object adds what the segment means, to its end or to the damage, and remembers whether its connection was lost |
| `Interpreter.HourInterpreter.Fail` | src/tape/bake/interpret.py:403-413 | counted always, sampled while the class has room |
| `Interpreter.SegmentInterpreter.Feed` | src/tape/bake/interpret.py:485-503 | one record takes the object's fields and the hour from what the records before it mean to what they mean with it |
| `Interpreter.SegmentInterpreter.OnSnapshot` | src/tape/bake/interpret.py:625-647 | the cells with their reason, the market fresh and its stale time added, and the gaps that waited for it alone resolved |
| `Interpreter.SegmentInterpreter.SnapshotReason` | src/tape/bake/interpret.py:649-662 | the reason by request, repetition and lost connection; the request is used up |
| `Interpreter.SegmentInterpreter.OnCommand` | src/tape/bake/interpret.py:723-744 | requests noted, markets left with their time, and nothing else |
| `Interpreter.SegmentInterpreter.OnGap` | src/tape/bake/interpret.py:746-775 | every book on the subscription goes stale, and the gap waits for exactly those or gives its row at once |
| `Interpreter.SegmentInterpreter.ResolveGaps` | src/tape/bake/interpret.py:853-863 | the gaps still waiting, and the rows of those that are not |
| `Interpreter.SegmentInterpreter.OnConnection` | src/tape/bake/interpret.py:809-834 | spans, sleeps, overflow and the last event |
| `Interpreter.SegmentInterpreter.Finish` | src/tape/bake/interpret.py:505-521 | what is still followed, open or pending is accounted for |
| `Baked.TablesHoldTheRun` | src/tape/bake/interpret.py:599-647 | the delta and snapshot tables hold the segment's changes in order, the gap table each gap exactly once |
| `Universe.NewestIsFreshest` | src/tape/recorder/universe.py:607-641 | one copy is kept of each ticker listed, and no other copy is fresher |
| `Universe.TiedMeans` | src/tape/recorder/universe.py:825-846 | two copies the order cannot tell apart differ in nothing but a close time of -1 for none or an empty strike type for none |
| `Universe.PlainListingHasNoOrder` | src/tape/recorder/universe.py:825-846 | a listing without such close times and strike types has no ties |
| `Universe.EveryMarketIsAccounted` | src/tape/recorder/universe.py:496-604 | the reason counts and the admitted markets add up to the markets handed in |
| `Universe.CountIs` | src/tape/recorder/universe.py:496-604 | each reason's count is the number of markets it is the reason of |
| `Universe.PassedIff` | src/tape/recorder/universe.py:651-758 | an eligible market no group chose has a group's reason exactly when some applied group selects it |
| `Universe.FirstReasonStays` | src/tape/recorder/universe.py:651-758 | and then it is the reason of the first such group |
| `Universe.OneGroupEach` | src/tape/recorder/universe.py:496-604 | each admitted market is in exactly one selection, that of the group it is named for |
| `Universe.SelectionIs` | src/tape/recorder/universe.py:496-604 | a selection is what its group chose of what no earlier group chose, as far as the budget then went |
| `Universe.BudgetHolds` | src/tape/recorder/universe.py:496-604 | over all groups, pinned ones included, the budget holds, and every eligible market is admitted, skipped for budget or not chosen |
| `Universe.EverySelectionKeepsCaps` | src/tape/recorder/universe.py:651-758 | what an applied group admits keeps its caps: markets in all and of one event, events in all or of one series, and the horizon |
| `Universe.BusiestEventsChosen` | src/tape/recorder/universe.py:733-750 | no event left out of a category group within floor and horizon is busier than one chosen |
| `Universe.NearestEventsChosen` | src/tape/recorder/universe.py:713-731 | no event left out of a series closes before one chosen of it |
| `Universe.TopIsFirst` | src/tape/recorder/universe.py:651-690 | the first n by a key: all or n of them, none left out before one taken |
| `Universe.KeepNewest` | src/tape/recorder/universe.py:607-633 | the loop keeps the specified copies and counts the spare ones |
| `Universe.PassOver` | src/tape/recorder/universe.py:753-758 | a reason is recorded for each candidate not chosen unless an earlier group gave one |
| `Universe.ApplyGroups` | src/tape/recorder/universe.py:562-592 | the loop over groups reaches the specified state |
| `OrderBook.KeyframeRoundTrip` | src/tape/book/book.py:234-255 | the keyframe rows of one book, with its last timestamp and stale flag and in whatever order its dictionaries keep them, load back to the same book if and only if it is not crossed |
| `OrderBook.KeyframesRoundTrip` | src/tape/book/book.py:313-342 | the rows of many books, in any order and however interleaved, load if and only if no book among them is crossed, and then give every book back |
| `Replay.OneStretchIff` | src/tape/store/catalog.py:332-345 | a second stretch exists exactly when some reading is more than the limit below one taken earlier by the wall clock |
| `Replay.StretchedOnce` | src/tape/store/catalog.py:332-345 | there is only one way to number the stretches |
| `Replay.ReplayOrder` | src/tape/store/catalog.py:332-347 | the list replay goes through: by stretch, then monotonic time, then gaps before frames, then place; and plain monotonic order when no restart shows |
| `Replay.SortedStretchByStretch` | src/tape/store/catalog.py:332-347 | that list is the stretches one whole after another, each sorted by itself |
| `Replay.ReplayRestoresTheRun` | src/tape/store/catalog.py:314-369 | baked, shuffled, sorted, regrouped and applied in the order replay takes, a run leaves every book with the levels and staleness of the run itself, whatever the wall clock said, if no restart shows |
| `Replay.ReplayRestoresEveryBoot` | src/tape/store/catalog.py:314-369 | with restarts: when splitting by the wall clock finds the boots of the host, replay does to the books what the runs of the boots do one after another |
| `Universe.OrderShowsIff` | src/tape/recorder/universe.py:607-641 | some other order of a listing keeps other copies if and only if two freshest copies of a ticker are tied |
| `Universe.SelectIgnoresOrder` | src/tape/recorder/universe.py:496-604 | without ties the whole decision is the same for every order of the listing |
| `Universe.OrderDecidesIff` | src/tape/recorder/universe.py:496-604 | some order of the listing changes what is decided, apart from the copies it carries, if and only if freshest copies of an open market tie, one with no close time and one closing at -1 |
| `Universe.OrderShowsInDecisionIff` | src/tape/recorder/universe.py:496-604 | and changes anything in the decision if and only if there is such a pair or tied freshest copies of an admitted market |
| `Universe.OrderAdmits` | src/tape/recorder/universe.py:496-604 | such a pair with a group that records the market in one order and not in the other |
| `Universe.AlikeChoose` | src/tape/recorder/universe.py:651-690 | what a group chooses does not depend on a strike type that is no threshold |
| `Universe.RoomyChooses` | src/tape/recorder/universe.py:651-750 | a group with room for all its candidates chooses every one within its horizon and, by category, in an event loud enough |
| `Universe.HorizonMeans` | src/tape/recorder/universe.py:692-710 | an event is within the horizon exactly when the group has none or some candidate of the event closes within it |
| `Universe.CountsKeptIff` | src/tape/recorder/universe.py:651-690 | the counts of some markets keep a group's caps exactly when there is room for each in turn |
| `Universe.PinsExceedCounts` | src/tape/recorder/universe.py:563-575 | each count can be exceeded by pins: markets in all, markets of one event, events of one series |
| `Universe.PinsExceedHorizon` | src/tape/recorder/universe.py:563-575 | so can the horizon: a pinned market is admitted though no eligible market of its event closes within it |
| `Universe.PinnedKeepsCountsIff` | src/tape/recorder/universe.py:563-575 | what a pinned group admits keeps its counts if and only if there is room, in turn and as far as the budget goes, for each pin that is eligible and no earlier group chose |
| `Universe.PinnedKeepsHorizonIff` | src/tape/recorder/universe.py:563-575 | and keeps its horizon if and only if of the event of each of those pins some candidate closes within it |
| `Universe.RepinnedKeepsCounts` | src/tape/recorder/universe.py:563-575 | pinned to what it admitted before, a group goes on keeping its counts as long as no pinned market changes its event |
| `Universe.RepinnedKeepsHorizon` | src/tape/recorder/universe.py:563-575 | and its horizon, if the clock has not gone back and each pinned market's event still shows a candidate closing no later than its earliest did |
| `Universe.RepinnedLosesHorizon` | src/tape/recorder/universe.py:563-575 | and otherwise not: a group pinned to what it admitted keeps a market whose event's early market has closed |
| `Baked.TablesHoldTheHour` | src/tape/bake/interpret.py:299-329 | the same tables of a whole hour hold the changes of all its segments |
| `Baked.SameTables` | src/tape/store/catalog.py:399-430 | the same changes in another order make the same tables, each in another order |
| `Baked.TapedIsReceived` | src/tape/recorder/supervisor.py:699-730 | on a tape, where monotonic receipts ascend but for a gap right behind the frame that revealed it, moving each gap before its frame gives the receive order |
| `Baked.TapeOrderLeavesStale` | src/tape/recorder/supervisor.py:699-730 | folded as taped instead, a snapshot and the gap it revealed leave the book stale; the recorder resynchronizes first and then takes the snapshot |
| `Baked.BakedHourReplays` | src/tape/store/catalog.py:314-369 | from records to books: an hour's segments interpreted, shuffled table by table, regrouped and applied in the order replay takes, no restart showing, leave every book as folding the hour's changes in receive order does, a gap before the frame that revealed it, whatever segments and connections taped them |
| `Baked.BakedConnectionReplays` | src/tape/store/catalog.py:314-369 | for the segments of one connection the receive order is the tape's, each gap moved before the frame in front of it |
| `Baked.BakedSegmentReplays` | src/tape/store/catalog.py:314-369 | the same of one segment by itself |
| `OrderBook.SnapshotMeans` | src/tape/book/book.py:100-128 | a snapshot is taken exactly when every count is positive, no side names a price twice and every bid is below every ask; then the book has exactly the listed levels on each side, else its levels stay and it is stale |
| `OrderBook.DeltaMeans` | src/tape/book/book.py:130-169 | a delta on a fresh book moves the one level of its own side by its amount, no level left at zero, and leaves the other side alone; below zero nothing moves; the book breaks exactly then or when a bid is at or above an ask |
| `OrderBook.ListingIsBestFirst` | src/tape/book/book.py:206-214 | a listing holds every level of its side once and nothing else, bids from the highest price down and asks from the lowest up |
| `OrderBook.Book.LevelsOf` | src/tape/book/book.py:206-214 | the levels of a side, as many as it has, best first; in a valid book the first is at the cached best, and there is none exactly when there is no best |
| `OrderBook.ImageRestores` | src/tape/book/book.py:206-214 | a book's image is accepted as a snapshot exactly when the book is not crossed, always when it is fresh, and then restores every level on any receiver |
| `OrderBook.DiffBooks` | src/tape/book/book.py:286-310 | the positions whose counts differ, each once, bids before asks and each side upward by price, and none exactly when the levels are equal |
| `OrderBook.KeyframeSays` | src/tape/book/book.py:233-255 | the rows of a keyframe name the side, price and count of each level, or there is the one row without a side of a book that has none |
| `Bus.LiveBooks.Observe` | src/tape/bus/livebooks.py:200-221 | the object follows the consumer rule: copies, epoch, number, missed count, whether the event was applied, the changes in order, and every counter moved by what happened |
| `Bus.LossIsCounted` | src/tape/bus/livebooks.py:223-240 | on every run the missed count of a delivered message is exactly the number of messages of its epoch that were lost before it, and the reset reason is a start, a new epoch or a gap exactly as the lost messages make it |
| `Bus.FollowingOnKeepsCopies` | src/tape/bus/livebooks.py:242-288 | on every run a message that follows the last one observed leaves a copy fresh, with the publisher's levels, if the publisher's book is fresh and the copy was or the message restores it |
| `Live.FollowersAreTold` | src/tape/api/hub.py:348-404 | of every bus message a follower of a market is told exactly what the market's status before and after and the event say: a loss, a stale mark, the new book, the very delta, or nothing; a session that does not follow it is told nothing |
| `Live.PrintsReachFollowers` | src/tape/api/hub.py:376-404 | of every bus message the trade and ticker updates a session gets are exactly the one of a market it follows, last |
| `Live.PrintIsQueued` | src/tape/api/session.py:179-193 | an open session that follows the market and has room ends with the update last in its queue |
| `Live.SubscriberIsTold` | src/tape/api/hub.py:243-279 | the reply to a subscription: what is followed and what was refused, then the book of each market newly followed and held, once, and nothing of any other |
| `Live.LagTells` | src/tape/api/session.py:219-240 | after a lag that does not close it a session has, of each market it follows, that it lagged and then the book held, and of no other market anything |
| `Live.ThirdLagCloses` | src/tape/api/session.py:219-240 | a lag closes the session exactly when it is the third within a minute |
| `Live.JudgeDecides` | src/tape/api/hub.py:243-279 | a ticker is accepted exactly when it is known and fewer than the limit were accepted before it, unknown ones refused as such and the others as too many |
| `Live.JudgeKeepsOrder` | src/tape/api/hub.py:243-279 | accepted and refused tickers keep the order they were asked in |
| `Live.UnlaggedViewerIsCurrent` | src/tape/api/hub.py:348-404 | on every run in which a session never lags, its client, once it has read everything, shows every market it follows as the hub holds it and no other market |
| `Hub.ClientSession.Offer` | src/tape/api/session.py:179-193 | the object refines the offer rule, within the bound or as a lag, counts its lags and closes with code 4000 for being too slow |
| `Hub.ClientSession.Lag` | src/tape/api/session.py:219-240 | the backlog is replaced by replies and resynchronization, or the session closed with code 4000 at the third lag in the window |
| `Hub.LiveHub.Receive` | src/tape/api/hub.py:317-374 | one bus message: the copies follow it, every session is offered exactly what it means for its markets, and an open session that follows a traded market and has room ends with the trade or ticker update last in its queue |
| `Exchange.PieceMirrors` | src/tape/recorder/supervisor.py:956-1000 | once the exchange has obeyed a piece's commands it carries, on every sid of the group, what is recorded after the piece, and nothing after a removal |
| `Exchange.MembersObeyed` | src/tape/recorder/planner.py:425-444 | markets added or removed are added or removed on every sid of their group and on no other |
| `Exchange.ReconcileMirrors` | src/tape/recorder/supervisor.py:929-970 | a whole reconciliation leaves the exchange, once it has obeyed everything sent, carrying what the connection records |
| `Exchange.OkMirrorsIff` | src/tape/recorder/supervisor.py:1098-1156 | a merge reply leaves the connection believing what the exchange carries on every sid of its group if and only if it reports nothing new or the group has no other sid |
| `Exchange.ExchangeHoldsWhatIsWanted` | src/tape/recorder/supervisor.py:929-1200 | on every run whose replies agree with the exchange, it carries exactly the sids the connection knows, each sid of the applied group with exactly the applied markets, which are the desired ones when no set_group is on its way and nothing is pending or was refused |
| `Exchange.FirehoseIsAskedOnce` | src/tape/recorder/supervisor.py:929-970 | on every run each subscribe is the firehose's or names some markets and the group's channels, and the firehose is asked for again only after an error frame refused it |
| `Hazards.MergeLeavesOtherSid` | src/tape/recorder/supervisor.py:1098-1156 | the excluded case is real, for every group on two channels and every larger one desired meanwhile: a run ends with it applied, nothing pending or due, and the other channel's sid without the markets added |
| `Supervisor.ConnectionSupervisor.ReconcileLocked` | src/tape/recorder/supervisor.py:929-970 | the object's loop is the reconciliation of the protocol; an exchange that carried what was recorded before carries what is recorded after, once it has obeyed all that was sent |
| `Resync.StepsSendWhenTheyReconcile` | src/tape/recorder/supervisor.py:929-1200 | a step sends nothing but requests for snapshots unless the connection goes on to reconcile with nothing pending, and then ends with what the reconciliation sends |
| `Resync.AskingMeans` | src/tape/recorder/supervisor.py:903-917 | asking for snapshots sends one command that names, in order, the markets not awaited yet, or none, and all are awaited then |
| `Resync.OutOfOrderAsks` | src/tape/recorder/supervisor.py:756-833 | a number that skips or repeats leaves the book of every applied market stale and its snapshot awaited, asked for again after a skip but not after a repetition if it was awaited |
| `Resync.AwaitedWasAsked` | src/tape/recorder/supervisor.py:903-917 | on every run no market is awaited that was not asked for on that sid |
| `Resync.MergeAsksForMissing` | src/tape/recorder/supervisor.py:1128-1156 | a merge asks for the snapshot of every member that is wanted and has no fresh book, and for no other |
| `Resync.RemovedGroupLeavesNoBook` | src/tape/recorder/supervisor.py:976-1023 | a group given up leaves no book that is not wanted and no fresh one of its own |
| `Changes.DiffIsWhatIsCalledFor` | src/tape/recorder/planner.py:277-333 | the difference makes every change that is called for, each once and by phase and group, and no other: a group leaves and comes again only if it moves to another connection or keeps no market |
| `Changes.KeptMarketsStay` | src/tape/recorder/planner.py:277-374 | a market that both plans have in one group on one connection is in it after any number of the pieces, so it is never unsubscribed on the way |
| `Changes.PiecesAreFull` | src/tape/recorder/planner.py:336-374 | a change within the limit is sent as it is; a larger one is cut at every limit-th of its tickers, in order |
| `Planner.DiffIsEmptyIff` | src/tape/recorder/planner.py:277-315 | there is nothing to change exactly between equal plans |
| `Assignment.Plan` | src/tape/recorder/planner.py:227-274 | members that may stay, then the other wanted markets in ticker order, each to the least loaded connection and the lowest of several, until every one is full; min(|wanted|, cap * connections) markets, none twice, and without a previous plan loads within one |
| `Assignment.PlanIsUnique` | src/tape/recorder/planner.py:227-274 | equal inputs give equal plans |
| `Assignment.LeftOutComeLast` | src/tape/recorder/planner.py:227-274 | every market that was dealt comes in ticker order before each one left out |
| `Assignment.StayMeans` | src/tape/recorder/planner.py:169-195 | a member stays exactly when it is still wanted and fewer than the cap of its connection's wanted members come before it |
| `Tapped.TapFollowsTheBook` | src/tape/recorder/supervisor.py:835-882 | whatever frames and group changes a connection meets, the book a tap is told of is the connection's own after every step |
| `Tapped.BookIsInWindow` | src/tape/recorder/tap.py:12-20 | at every moment of a faultless window the connection has the market's book, and it is one of the states the window spans |
| `Tapped.WindowWasTheBook` | src/tape/recorder/tap.py:12-20 | each state a faultless window spans was the connection's book after some step |
| `Tapped.AuditSpeaksOfTheBook` | src/tape/recorder/auditor.py:251-312 | over a faultless window an audit finds the reply inconsistent exactly when the connection's book never had those levels while the tap was open |
| `Tapped.AuditIsAsOfTheReply` | src/tape/recorder/auditor.py:251-312 | it finds the reply exact if and only if it equals the book that the frames received by then had made, which is the state it reports |
| `Universe.BestOfEachEvent` | src/tape/recorder/universe.py:651-690 | of an event a group takes as many markets as it may, and none it leaves ranks before one it takes; what ranking means in a market's own values is Ranking.BestAreTaken |
| `Universe.Select` | src/tape/recorder/universe.py:496-604 | the method computes the decision the properties above and below are about |
| `Ranking.LatestIsKept` | src/tape/recorder/universe.py:607-641 | of each ticker listed the copy kept is one of its copies and none is later: by volume, then close, status, event, series, shard and the rest |
| `Ranking.BestAreTaken` | src/tape/recorder/universe.py:651-690 | of an event a group takes as many markets as it may, each before every one it leaves: by volume, then known and earlier close, then ticker; with near_price a priced market first, by distance of its mid from 5000 where all markets are thresholds and by the higher mid elsewhere |
| `Ranking.BusiestAreChosen` | src/tape/recorder/universe.py:733-750 | a category group chooses, of the events within floor and horizon, as many as it may, each with a summed volume no less than that of any other that qualifies, then the earlier close, event and series |
| `Ranking.NearestAreChosen` | src/tape/recorder/universe.py:713-731 | a series group chooses of each of its series the events whose earliest known close is soonest |
| `Ranking.ChosenQualify` | src/tape/recorder/universe.py:692-750 | every chosen event has an eligible candidate, closes within the horizon and, by category, reaches the volume floor |
| `Ranking.LeftOutWhenFull` | src/tape/recorder/universe.py:713-750 | an event that qualifies is left out only when the group has as many as it may choose, in all or of its series |
| `Ranking.ChoiceInOrder` | src/tape/recorder/universe.py:651-690 | everything a group chooses stands in the order it is to be admitted |
| `Ranking.ReasonHolds` | src/tape/recorder/universe.py:651-758 | why a candidate was not chosen is what its reason says |
| `Admission.RejectionMeans` | src/tape/recorder/universe.py:467-493 | a market is eligible exactly when it is active, no excluded multivariate leg, not closed and not beyond the horizon; each reason is the first of these that fails |
| `Admission.AdmittedAreEligible` | src/tape/recorder/universe.py:496-604 | every admitted market is eligible by the copy of it that is kept |
| `Admission.AdmittedAreSelected` | src/tape/recorder/universe.py:644-648 | an applied group admits only markets of its series or category |
| `Admission.ShowcaseIs` | src/tape/recorder/universe.py:576-582 | the showcase is exactly what series groups admitted |
| `Admission.DroppedIs` | src/tape/recorder/universe.py:572-600 | what is dropped is what the selections skip, and nothing is skipped unless the admitted fill the budget |
| `Admission.MarketsAreTheAdmitted` | src/tape/recorder/universe.py:593-604 | the decision's markets are the kept copies of the admitted ones, by ticker |
| `Archive.PrunableMeansNothingSpeaks` | src/tape/bake/prune.py:141-189 | a prunable hour: every moment of it is longer ago than the retention, it was baked without failures by the current version, every file on disk matches what was baked and no part is missing or changed |
| `Archive.PrunableIff` | src/tape/bake/prune.py:141-189 | an hour is prunable exactly when all that holds and every baked segment is on disk or on record as pruned |
| `Archive.ReasonsAre` | src/tape/bake/prune.py:141-233 | every reason that applies is given and no other, each in the archive's own terms; a hash not made is a reason only alone |
| `Archive.SurveyHashesLast` | src/tape/bake/prune.py:236-293 | files are hashed only for an hour against which nothing else speaks |
| `Archive.SurveyTakesWhatIsDue` | src/tape/bake/prune.py:236-293 | a survey takes every segment of an hour that is due and none of any other |
| `Archive.UnlinkedWasDue` | src/tape/bake/prune.py:310-374 | on every run, whatever is unlinked was at some survey before out of retention, with its hour's segments as baked and all its parts on disk |
| `Archive.DueHourCanGo` | src/tape/bake/prune.py:310-374 | from a free lock an hour that is due can be pruned: no raw segment of it is left, each is on record as it was, and its parts are untouched |
| `Archive.RecordedBakeIsOnDisk` | src/tape/bake/bake.py:202-240 | on every run, when a bake is recorded the manifest says of its hour exactly what is on disk |
| `Archive.BakeCanFinish` | src/tape/bake/bake.py:119-240 | a bake under way can be finished, its tables swapped one after another and the bake recorded |
| `Ledger.EveryRecordHasItsRows` | src/tape/bake/interpret.py:485-503 | the tables say of every record what it carries: a snapshot with the reason its history gives it, a gap with the wall time it was resolved at |
| `Ledger.StaleSinceGap` | src/tape/bake/interpret.py:746-775 | a followed market's book is stale exactly while a gap on its subscription has not been followed by its snapshot, and since the first such gap |
| `Ledger.HeldIsFollowed` | src/tape/bake/interpret.py:836-851 | a market held is followed since some record, which gave it its subscription and time |
| `Ledger.SpansAreThose` | src/tape/bake/interpret.py:809-878 | each span began with a record that opened the connection, or before the segment, and ended as its ending record says |
| `Ledger.LostIff` | src/tape/bake/interpret.py:480-483 | a connection is lost by the end of a segment exactly when the last record that opens, closes or breaks it says that it closed unasked |
| `Ledger.CountedAsItsRows` | src/tape/bake/interpret.py:485-503 | a record has rows exactly when it is counted as baked, in the table it is counted for; the others are counted as what they are |
| `Ledger.FactsAddUp` | src/tape/bake/interpret.py:415-441 | audits by outcome, dropped records and mismatched levels add up over the records |
| `Parting.BucketsStayWhole` | src/tape/bake/spill.py:91-129 | a bucket that fits a part is whole in one part, and a larger one is cut into full pieces, each a part of its own, and its remainder |
| `Parting.PartsInTurn` | src/tape/bake/spill.py:91-129 | read part by part the ranges go through the buckets in order and through each in the order its rows were added |
| `Parting.PartsAreFull` | src/tape/bake/spill.py:91-129 | the next part begins with a bucket that this one had no room for |
| `RateLimit.NothingIsWasted` | src/tape/client/ratelimit.py:89-136 | while the bucket never fills, tokens and grants together are exactly what was there and what was added |
| `Replay.AppliedMeans` | src/tape/store/catalog.py:350-369 | what replay does to a book with each event, in levels |
| `Segment.HeaderLayout` | src/tape/segment/segment.py:124-143 | where each field of the 23-byte header lies and how it is spelled |
| `Segment.FitsMeans` | src/tape/segment/segment.py:124-143 | a record is accepted exactly when its kind is one of five and its fields have at most 16, 64, 64 and 32 bits |

## Left out

- Tickers, prices, hours, channels and ids are `Key`s: only their order and equality matter to the code modelled. Price and count parsing and the checksum's own claim are not modelled; `Audit` holds for any checksum that is a function of the levels.
- Timestamps and statistics nothing branches on, logging, configuration, authentication, the REST client, directory views and the command line.
- ZeroMQ, websockets and asyncio: a message is lost, delivered, replied to or cancelled between atomic steps. A frame handled while `set_group` is suspended in a send inside the lock is taken to come before or after the whole locked section.
- Markets published from two connections at once: one connection publishes each market in `Bus`.
- Supervisor.ConnectionSupervisor.ReconcileLocked: the object holds its books as values; book messages are applied to values in `Feed`, and to `Book` objects in a dictionary in `Bus.LiveBooks`.
- Reconnecting with backoff and the subscribe deadline: a connection's run starts from `Feed.Opened` with stale books and ends anywhere.
- Feed.BooksFollowTheirFrames: assumes that a reply names a channel of its command, that a sid keeps its channel, and that the orderbook channel is not a firehose channel; a history ends exactly where the source cannot see a loss, as stated there.
- Exchange.ExchangeHoldsWhatIsWanted: the exchange obeys commands at once and in order; assumes that replies name what it did and that a merge reports nothing new to a group with several sids.
- Tapped.AuditSpeaksOfTheBook: frames carry the times they were received at, which AuditIsAsOfTheReply asks to be on one side of the reply and then on the other; the book at opening keeps the invariant every `Book` keeps.
- OrderBook.BooksFromKeyframeRows: gives the values of the books it makes, one object to a ticker; keyframe files are not read.
- Interpret.RowsAreMeant: a record comes with what decoding it gives, or with its failure; a row keeps the columns anything depends on and the place of its record; a segment's own read failure is given by the caller.
- Universe.Select: ranks markets by functions of their keys, so the sorting itself is not a loop; a selection's count of events is read off its markets; the listing's own parsing and validation are not modelled.
- Universe.OrderDecidesIff: assumes that the decision is not made before 1970: its time is in Unix seconds and at least -1.
- Spill.TableWriter.Finish: sorting by columns is one order on keys and places; Arrow, Parquet and file names are not modelled.
- Archive.UnlinkIsRecorded: one day's archive with one process at a time holding its lock; the facts of one hour are gathered in one step, segment names are never reused, and equal hashes stand for equal content.
- Replay.ReplayRestoresTheRun: rows of `deltas` and `gaps` are their events; assumes strictly increasing monotonic times but for a gap and its frame, distinct snapshot keys, and no restart detected.
- Replay.ReplayRestoresEveryBoot: assumes that numbering events by boot is what the split gives; a restart that the wall clock or the limit hides is not split.
- Baked.BakedHourReplays: asks for a receive order of the hour's changes, so no two frames, of whatever connections, share a monotonic receipt.
- Segment.SegmentReader.ReadAll: compression is the identity and the file header is already read.
- Sink.SegmentSink.Get: the writer thread's files, hours and flushes are not modelled, and it does not fail.
- The metadata resolver, the catalog's time ranges and scans, and the TypeScript viewer: the client is the fold its documentation and store describe.
