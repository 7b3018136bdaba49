# Verified models of the DLRover node-side runtime

This project models the stateful core of DLRover's node-side Python code in Dafny and proves what its
operations keep, over every input and every interleaving.

**Local-socket IPC** (`dlrover/python/common/multi_process.py`). `Framing` has the length-prefixed
messages and the read loop. `SharedDict`, `SharedLock` and `SharedQueue` are step relations over any
number of clients, connection handlers, server threads and local calls, and `TokenQueue` matches the runs
of the first by runs of the last. Each line of the source that
reads or writes shared state is a step of its own.

**Checkpoint retention** (`dlrover/python/common/storage.py`). `Retention` has the tracker file, the
remembered previous step and the two deletion strategies, as classes and as functions, with the safety
of the step that the tracker names; `RetentionHistory` relates them to the plain history of successful,
failed and repeated commits, failed tracker writes and failed deletions.

**Event export and spans** (`dlrover/python/training_event`). `AsyncExporter` is a step relation over
`export` calls, the worker thread, `close` and a clock. `Spans` describes a span and trees of spans as
functions of the calls made on them; `SpanObjects` has the span objects with their mutable content dicts.

**Synchronisation helpers** (`singleton.py`, `store_util.py`). `Singleton` and `Barrier` are step
relations over any number of threads or participants.

**Searches, merges and round trips** (`common_util.py`, `conf_util.py`, `k8s_util.py`). `Ports` has the
two port searches as loops. `LabelSelector` has the printer and the parser. Configuration merging takes
four modules: `ConfigOrder` has registration and the override order; `ConfigMerge` describes merging on
shapes, nested dicts as values that carry the identity of every dict object; `ConfigMergeObjects` has the
recursive in-place merge on the dict objects and proves it against the shapes; `ConfigPrecedence` says
what looking up a path in the dict objects finds afterwards.

`Runs` defines the runs of a step relation, `Counting` sums over threads or calls, `Basics` an option
type.

Three conventions. History fields (such as `applied`, `accepted`, `high`) record what has happened and
are never read by the modelled code. An assumption on a run is a named step relation that leaves the
excluded steps out (`WriterReaderStep`, `NoStealStep`, `DisciplinedStep`, `MonotoneStep`, `NamingStep`,
`SerialStep`, `QuietStep`, `OrderedStep`), and each is accompanied by a lemma that shows what goes wrong without it.
A thread or process that dies is one that takes no further step.

## Where a promise does not hold as given

Each case has a concrete run or input and the condition under which the promise does hold.

- Frames: if the chunks of the stream end where the frame ends, receiving works exactly when the first
  chunk holds the four length bytes (`Framing.FrameRoundTrip`). If the first chunk does, receiving works
  exactly when some chunk ends where the frame ends; two frames in one read are glued together
  (`Framing.FrameInStream`, `Framing.CoalescedFrames`). The reader stays in its loop exactly when fewer
  bytes follow than its first bytes announce (`Framing.HangsExactly`).
- SharedDict: a server-side `get` is fresh in every run in which no client-side `get` takes a token in its
  finally block, and wherever one is about to, it can make a later server-side `get` return an old dict
  (`SharedDict.FreshGet`, `SharedDict.StolenTokenMakesGetStale`). A client-side `get` can also jam the dict
  server for good (`SharedDict.ClientGetCanJam`). A client that dies between its put and its request blocks
  every later put and get (`SharedDict.DeadWriterBlocksAll`).
- SharedLock: any connection can release the lock, and a failed acquire by the holder orphans it
  (`SharedLock.RogueReleaseFreesTheLock`, `SharedLock.RogueAcquireOrphansTheLock`). A release that crosses
  another one leaves a flag set, which frees the lock of another later on
  (`SharedLock.CrossingReleasesLeaveStaleFlag`, `SharedLock.StaleFlagFreesTheLock`).
- Retention: keep-latest with two or more checkpoints deletes the step that the tracker names when the
  tracker goes back to the oldest kept step, exactly if at least that many were committed; keep-interval,
  and keep-latest with one, never do (`RetentionHistory.GoingBackDeletesNamedStep`,
  `Retention.SafeWithoutMonotonicity`). A commit of a step that the tracker does not name can delete the
  named one (`Retention.UnnamedCommitDeletesNamedStep`). The
  class documentation promises that the latest `max_to_keep` steps remain; after a restart the steps
  kept earlier are never deleted (`RetentionHistory.RestartStrandsSteps`), and every repeated commit takes
  a place away: the latest steps remain exactly when fewer steps than the limit have been handed to the
  strategy since the oldest of them (`RetentionHistory.KeepsExactlyLatest`,
  `RetentionHistory.RepeatedCommitUsesUpAPlace`).
- AsyncExporter: after `close` the counters add up for every timeout above the one second that the
  worker waits on the queue, and for no timeout up to it (`AsyncExporter.ClosedConserves`,
  `AsyncExporter.ShortTimeoutCountsTwice`).
- Spans: the documentation says that only the first of `end`, `success` and `fail` takes effect. For the
  emitted events this is so (`Spans.SpanEventsInTree`). The content dict, which the END event shares, is
  still written by later calls; for a span with a dict of its own it is sure to stay the same exactly when
  no `success` or `fail` follows (`Spans.EndContentStays`). Spans that were given the same non-empty dict
  write into each other's END events (`Spans.CellContent`, `Spans.SharedDictLeaks`).
- Singleton: one object per class needs truthy instances; a falsy one is rebuilt by every call
  (`Singleton.FalsyAlwaysBuilds`). When a base class is used as a singleton as well, all calls return
  one object exactly if the base class has its instance lock before the first call
  (`Singleton.SharedLockOrders`, `Singleton.LateBaseSplits`).
- Port range: the error message shows a half-open range, the search covers both ends.
- Configuration: precedence needs every dict object to stand at one path only. If one stands at two, a leaf
  that a later configuration sets below one path appears below the other
  (`ConfigPrecedence.TwoPlacesBreakPrecedence`).
  If none does, then in one merge the later definition wins at every leaf exactly when no earlier leaf
  stands where the later side has a dict and no later leaf stands above an earlier one
  (`ConfigPrecedence.MergeDicts`). Over several merges, a configuration is skipped below a dict object
  that it shares with the first configuration that has a dict there, as a subclass that inherits a
  nested dict does. The last definition wins exactly when the last one that is not skipped has the same
  value (`ConfigPrecedence.MergeRegistered`, `ConfigMerge.SharedDictBreaksPrecedence`).
- Label selector: the round trip holds exactly for non-empty dicts without ',' and '='
  (`LabelSelector.SelectorRoundTrip`).

## Model

| member | source | states |
|---|---|---|
| Framing.HeadRoundTrip | dlrover/python/common/multi_process.py:106-112 | decoding the four big-endian length bytes gives the length back, for every length below 2^32 |
| Framing.PositionalValue | dlrover/python/common/multi_process.py:122 | big-endian bytes, however many: each is worth 256 to the number of bytes after it, and no bytes are worth 0 |
| Framing.ShortHead | dlrover/python/common/multi_process.py:120-122 | the first bytes of a head, if it is cut short, announce the length without its low-order part |
| Framing.Socket.constructor | dlrover/python/common/multi_process.py:115-126 | a reading end that will deliver the given chunks |
| Framing.Socket.Recv | dlrover/python/common/multi_process.py:119 | one read takes the next chunk off the stream, and yields nothing once the stream has ended |
| Framing.SocketRecv | dlrover/python/common/multi_process.py:115-126 | the read loop computes `Received`, on every stream: it ends with the same message and leaves the same chunks unread, or never ends |
| Framing.CollectConsumes | dlrover/python/common/multi_process.py:123-126 | a loop that ends has appended exactly the chunks it consumed, the last of which was needed; one that does not end had too few bytes to come |
| Framing.CollectStops | dlrover/python/common/multi_process.py:123-126 | a loop whose chunks add up to the announced length stops right after them |
| Framing.ReceivesUpToABoundary | dlrover/python/common/multi_process.py:115-126 | on every stream on which it ends: what comes back are all bytes behind the first four (or fewer) up to the first chunk boundary at which there are as many as announced, and the rest of the stream is left |
| Framing.EndedStreamIsEmptyMessage | dlrover/python/common/multi_process.py:115-126 | a stream that has ended yields the empty message |
| Framing.FrameRoundTrip | dlrover/python/common/multi_process.py:106-126 | for every message below 2^32 bytes, every split of its frame into non-empty chunks and whatever chunks come after it: the receiver returns the message and stops right behind the frame if and only if the first chunk has at least four bytes |
| Framing.FrameInStream | dlrover/python/common/multi_process.py:115-126 | for every stream that starts with a frame whose head is in the first chunk, however what follows is chunked: the result starts with the message, and is the message if and only if a chunk ends where the frame ends |
| Framing.CoalescedFrames | dlrover/python/common/multi_process.py:115-126 | two frames in one read: the first message is returned with the second frame glued to it |
| Framing.HangsExactly | dlrover/python/common/multi_process.py:115-126 | on every stream the read loop never finishes if and only if fewer bytes follow the first four (or fewer) bytes of the first chunk than these announce |
| Framing.TruncatedFrameHangs | dlrover/python/common/multi_process.py:115-126 | hence on a stream that ends inside a message whose head came in one piece |
| SharedDict.InvRun | dlrover/python/common/multi_process.py:475-511 | in every run in which no client-side `get` takes a token, the tokens, the two server threads, the applied writes and the readers fit together |
| SharedDict.NoGetsNoSteal | dlrover/python/common/multi_process.py:620-633 | runs without client-side gets are such runs |
| SharedDict.OwedHasToken | dlrover/python/common/multi_process.py:614-616 | a write whose token is still owed finds exactly one token, and no other write is owed one |
| SharedDict.TokenAccounting | dlrover/python/common/multi_process.py:599-618 | the token count equals the number of writes between token-in and token-taken and is at most one, and the finally block of a `set` always finds its own token |
| SharedDict.EmptyMeansApplied | dlrover/python/common/multi_process.py:651-666 | an empty token queue means that every write whose put returned has been applied |
| SharedDict.WriteCarriesArgument | dlrover/python/common/multi_process.py:635-649 | the write that a `set` call makes carries the argument of the call, for good |
| SharedDict.WriteHasCall | dlrover/python/common/multi_process.py:635-649 | every write has been made by a `set` call with that argument |
| SharedDict.PutReturnedMeans | dlrover/python/common/multi_process.py:646-647 | in every run the put of a write counts as returned exactly after the queue server has answered it |
| SharedDict.FreshGet | dlrover/python/common/multi_process.py:635-666 | a server-side `get` begun after the token put of a write returned yields the argument of the `set` call that made that write or one applied later, in every interleaving in which no client-side `get` takes a token |
| SharedDict.StolenTokenMakesGetStale | dlrover/python/common/multi_process.py:599-666 | from every state in which a client-side `get` is about to take a token, a run exists in which a server-side `get` begun after the put of a write returned hands back a dict of before that write |
| SharedDict.WorkDecreases | dlrover/python/common/multi_process.py:599-649 | every step of a `set` lowers the measure over the writer phases; readers leave it unchanged |
| SharedDict.WorkIsBounded | dlrover/python/common/multi_process.py:599-649 | no schedule contains more steps of the outstanding sets than the measure allows |
| SharedDict.WorkEnabled | dlrover/python/common/multi_process.py:475-511 | outside a client-side `get`, while a `set` is unfinished some step of a `set` is enabled, even with the queue server parked in a blocking put |
| SharedDict.SetsComplete | dlrover/python/common/multi_process.py:635-649 | from every reachable state outside a client-side `get` the outstanding sets can be run to completion within the measure |
| SharedDict.SetCompletes | dlrover/python/common/multi_process.py:635-649 | while nothing else is under way a client can complete a `set`, after which the dict is its argument and nothing else has changed |
| SharedDict.LocalSetCompletes | dlrover/python/common/multi_process.py:642-643 | the creating process can always set the dict itself |
| SharedDict.GetCompletes | dlrover/python/common/multi_process.py:661-666 | a server-side `get` begun while no token is queued can complete with the dict of that moment, changing nothing |
| SharedDict.FinallyEnds | dlrover/python/common/multi_process.py:614-618 | the finally block of a `set` takes one token if there is one and ends without one too |
| SharedDict.ClientGetReturns | dlrover/python/common/multi_process.py:599-618 | a client-side `get` that meets no token changes nothing and leaves the dict server free |
| SharedDict.DeadWriterKeepsToken | dlrover/python/common/multi_process.py:635-649 | if a client stops between its put and its request, its token stays in the queue in every run |
| SharedDict.DeadWriterBlocksAll | dlrover/python/common/multi_process.py:635-666 | then whatever server-side get polls, or put has not got past the queue, at any moment of the run, still does at every later moment |
| SharedDict.JammedForever | dlrover/python/common/multi_process.py:620-666 | once a client-side `get` spins while a token is queued, no client-side `set` and no server-side `get`, pending or begun later, ever completes |
| SharedDict.ClientGetCanJam | dlrover/python/common/multi_process.py:599-618 | one client-side `get` is enough to reach that state, for every dict |
| SharedDict.ClientGetCanStealToken | dlrover/python/common/multi_process.py:614-616 | the finally block of a client-side `get` can take the token of a write that is not applied yet |
| SharedDict.ClientGetCanMakeGetStale | dlrover/python/common/multi_process.py:599-666 | then a server-side `get` begun after the put returned hands back the older dict |
| TokenQueue.TokensAreAQueue | dlrover/python/common/multi_process.py:595-597 | every run of the dict, client-side gets included, is matched by a run of a SharedQueue of size one whose length is the number of tokens |
| TokenQueue.AtMostOneToken | dlrover/python/common/multi_process.py:595-597 | so the bound of the queue holds for the tokens in every run |
| SharedLock.InvStep | dlrover/python/common/multi_process.py:284-333 | every step of disciplined clients, handlers and the creating process keeps each connection well formed and moves ownership together with the lock |
| SharedLock.InvRun | dlrover/python/common/multi_process.py:284-333 | hence in every such run the number of owners is the state of the lock |
| SharedLock.LockedIffOneOwner | dlrover/python/common/multi_process.py:284-389 | the lock is held if and only if exactly one owner has it, and never more than one |
| SharedLock.HoldersExclude | dlrover/python/common/multi_process.py:284-389 | a client that believes it holds the lock is the only one, the creating process does not hold it, and its handler has its flag set |
| SharedLock.OnlyOwnerReleases | dlrover/python/common/multi_process.py:298-300 | the lock is freed only by its owner, and a connection loses it only by a step of its own handler |
| SharedLock.GoneHandler | dlrover/python/common/multi_process.py:302-333 | on a connection whose client is gone only the handler moves, each step uses up one of the steps left, and while it owns the lock it is never blocked |
| SharedLock.GoneHandlerIsBounded | dlrover/python/common/multi_process.py:284-333 | whatever else happens, the handler of a vanished client takes a bounded number of steps, and after them it does not own the lock |
| SharedLock.VanishedOwnerReleases | dlrover/python/common/multi_process.py:331-333 | an owner whose client disconnected, at whatever point, is released by steps of its own handler alone |
| SharedLock.VanishesAnytime | dlrover/python/common/multi_process.py:302-333 | a client can vanish in every reachable state; if its connection owns the lock its handler then frees it |
| SharedLock.ConnectsAnytime | dlrover/python/common/multi_process.py:335-348 | and a connection can be made in every reachable state |
| SharedLock.AwaitedReplyProgress | dlrover/python/common/multi_process.py:284-333 | while a client awaits a reply, its connection can move, or its handler waits for the lock and the owner of the lock can move towards giving it back |
| SharedLock.HandlerDealsWithLastSent | dlrover/python/common/multi_process.py:287-300 | in every disciplined run a handler deals with the last request that its client has sent, blocking exactly if that says so |
| SharedLock.AcquireIsAnswered | dlrover/python/common/multi_process.py:291-294 | an acquire that is non-blocking, or finds the lock free, is answered by steps of its own connection alone, with true exactly if the lock was free |
| SharedLock.AcquireReturns | dlrover/python/common/multi_process.py:356-381 | from the call to the return of such an acquire: the client holds the lock exactly if it was free, and nothing else has changed |
| SharedLock.ReleaseReturns | dlrover/python/common/multi_process.py:383-396 | from the call to the return of a release by the holder, by steps of its own connection alone: the lock is free and the connection as new |
| SharedLock.LocalRoundTrip | dlrover/python/common/multi_process.py:363-389 | the creating process takes a free lock and gives it back, which restores the state |
| SharedLock.LocalReleaseReturns | dlrover/python/common/multi_process.py:387-389 | its release leaves the lock free whether or not another has released it already |
| SharedLock.ReleaseIsDealtWith | dlrover/python/common/multi_process.py:298-300 | in any state a handler that has received a release clears its flag and leaves the lock free, without any other step |
| SharedLock.LateReleaseKeepsFlag | dlrover/python/common/multi_process.py:298-321 | except that its flag stays when another releases the lock after it has looked |
| SharedLock.LeavesTheLoop | dlrover/python/common/multi_process.py:331-333 | in any state a handler that has left its loop releases the lock exactly if its flag is set and the lock is locked |
| SharedLock.LastRequestMayBeLost | dlrover/python/common/multi_process.py:302-316 | the last request of a client that has gone may be served or lost with the connection |
| SharedLock.RogueReleaseFreesTheLock | dlrover/python/common/multi_process.py:298-300 | a release by a client that holds nothing frees the lock of another |
| SharedLock.CrossingReleasesLeaveStaleFlag | dlrover/python/common/multi_process.py:298-321 | such a release, crossing that of the holder, leaves the flag of the holder set while the creating process has got the lock |
| SharedLock.StaleFlagFreesTheLock | dlrover/python/common/multi_process.py:331-333 | wherever a flag is stale, the disconnection of its client frees the lock that another has |
| SharedLock.RogueAcquireOrphansTheLock | dlrover/python/common/multi_process.py:291-294 | a failed acquire by the holder clears its flag; when it then disconnects the lock stays locked without owner |
| SharedLock.OrphanedForever | dlrover/python/common/multi_process.py:284-333 | an orphaned lock stays locked and ownerless in every disciplined run |
| SharedQueue.InvRun | dlrover/python/common/multi_process.py:475-542 | every interleaving of local and remote calls keeps order, bound, call results and counts consistent |
| SharedQueue.FifoWithinBound | dlrover/python/common/multi_process.py:468-542 | removed objects are a prefix of the accepted ones, the rest is the queue, which never exceeds a positive maxsize |
| SharedQueue.DeliveredOnce | dlrover/python/common/multi_process.py:517-542 | every removed object is held by exactly one get and every accepted one was supplied by exactly one put, with the object of that position |
| SharedQueue.PatientPutIsAccepted | dlrover/python/common/multi_process.py:517-528 | a put without timeout that returns has been accepted |
| SharedQueue.FailsExactlyWhenStuck | dlrover/python/common/multi_process.py:517-542 | over every run: an executed put fails exactly when it finds a positive maxsize reached, an executed get exactly when it finds nothing, and only calls that give up fail; otherwise the put goes last and the get takes the first object |
| SharedQueue.RemoteCallReturns | dlrover/python/common/multi_process.py:475-511 | a waiting remote call that the queue can carry out, or that gives up, is answered by the idle server alone, which leaves the other calls as they are |
| SharedQueue.LocalCallReturns | dlrover/python/common/multi_process.py:517-542 | a local call likewise, at once and whatever the server does |
| SharedQueue.ImpatientPutCanBeLost | dlrover/python/common/multi_process.py:517-528 | for every positive maxsize a remote put with a timeout can return normally although its object was refused |
| SharedQueue.ParkedUntilLocalHelp | dlrover/python/common/multi_process.py:475-511 | while the server thread is blocked inside a request, no remote call is executed or answered until a local call helps |
| Retention.KeepLatestStepStrategy.constructor | dlrover/python/common/storage.py:247-250 | the limit is at least one and no step is listed |
| Retention.KeepLatestStepStrategy.CleanUp | dlrover/python/common/storage.py:252-261 | list and disk change as `AfterCleanUp`, `Deletes` and `Victim` say |
| Retention.KeepStepIntervalStrategy.constructor | dlrover/python/common/storage.py:222-224 | the interval is kept as given |
| Retention.KeepStepIntervalStrategy.CleanUp | dlrover/python/common/storage.py:226-234 | deletes the given step unless it is a multiple; raises exactly for a zero interval |
| Retention.PosixStorageWithDeletion.constructor | dlrover/python/common/storage.py:291-297 | no previous step is remembered |
| Retention.PosixStorageWithDeletion.WriteTracker | dlrover/python/common/storage.py:299-305 | the whole new state, for a write that succeeds, fails before or fails after truncating the file |
| Retention.PosixStorageWithDeletion.CommitStep | dlrover/python/common/storage.py:307-311 | the whole new state, and exactly when the error of a zero interval escapes |
| RetentionHistory.HistoryDecides | dlrover/python/common/storage.py:222-311 | for both strategies, from any disk and tracker: after any history of commits of increasing steps, repeated and failed commits, failed tracker writes and failed deletions, what tracker, previous step and strategy hold, and exactly which steps are on disk |
| RetentionHistory.FailedCommitsDropOut | dlrover/python/common/storage.py:307-308 | a history and the one without its failed commits end in the same state, from any state |
| RetentionHistory.CommitHistory | dlrover/python/common/storage.py:247-311 | the same for undisturbed commits, as a function of the committed steps alone |
| RetentionHistory.KeepsExactlyLatest | dlrover/python/common/storage.py:247-261 | starting with nothing, after any history whose deletions succeed: exactly the last min(n, max(max_to_keep, 1)) committed steps are on disk if and only if fewer steps than the limit have been handed to the strategy since the oldest of them; always if no commit was repeated |
| RetentionHistory.RepeatedCommitUsesUpAPlace | dlrover/python/common/storage.py:252-311 | a repeated commit makes a step go that is among the last three, for a limit of three |
| RetentionHistory.KeepsExactlyMultiples | dlrover/python/common/storage.py:222-235 | starting with nothing, after any history whose deletions succeed, repeated and failed commits and failed tracker writes included: exactly the committed multiples of the interval and the latest step are on disk |
| RetentionHistory.RestartStrandsSteps | dlrover/python/common/storage.py:247-311 | exactly which steps are on disk when the process restarts in between: what was kept before, other than the named step, is never deleted |
| Retention.NamedStepSurvives | dlrover/python/common/storage.py:222-311 | in every run of successful, failed and repeated commits, failing writes and deletions, and restarts, in which tracker steps never decrease, no operation deletes the step the tracker names |
| Retention.SafeWithoutMonotonicity | dlrover/python/common/storage.py:222-311 | for keep-interval, and keep-latest with one step, this holds even if tracker steps decrease |
| Retention.UnnamedCommitDeletesNamedStep | dlrover/python/common/storage.py:299-311 | a commit after a failed tracker write deletes the step the tracker still names, for every interval of which it is no multiple |
| RetentionHistory.CycleDeletesOldest | dlrover/python/common/storage.py:252-261 | naming and committing the oldest listed step again deletes it when the list is full |
| RetentionHistory.GoingBackDeletesNamedStep | dlrover/python/common/storage.py:247-311 | for every larger limit and every commit history of two steps or more, going back to the oldest kept step deletes the step the tracker names if and only if at least as many steps as the limit were committed |
| AsyncExporter.InvRun | dlrover/python/training_event/exporter.py:82-153 | with a monotone clock, closing thread, worker, queue and delivered events fit together in every run |
| AsyncExporter.SingleConsumerInOrder | dlrover/python/training_event/exporter.py:82-153 | the drain never runs beside a living worker, at most one event is out of the queue, and events reach the inner exporter in the order of acceptance |
| AsyncExporter.EventsConserved | dlrover/python/training_event/exporter.py:82-156 | every submitted event is exported, failed, refused, queued or the one in hand, in every interleaving, also during and after `close` |
| AsyncExporter.OutcomesAreCounted | dlrover/python/training_event/exporter.py:82-138 | in every run whatever, the error counter is the number of calls of the inner exporter that raised, by the worker or the drain, and the events exported are those whose call returned |
| AsyncExporter.SubmissionsAreCounted | dlrover/python/training_event/exporter.py:95-104 | in every run whatever, the submitted events are the calls of put_nowait, and the refusals stored are the updates of the drop counter by `export` |
| AsyncExporter.RefusedExactlyWhenFull | dlrover/python/training_event/exporter.py:100-104 | in every run the queue stays within a positive maxsize, and an event is refused exactly when the queue has that length; otherwise it is queued last |
| AsyncExporter.SubmittedExactlyWhileRunning | dlrover/python/training_event/exporter.py:97-98 | an export call goes on exactly if `close` has not cleared the flag before its check |
| AsyncExporter.ExportReturns | dlrover/python/training_event/exporter.py:95-104 | an export call made in any state ends by its own steps: ignored if the exporter does not run, queued last if there is room, counted as dropped otherwise |
| AsyncExporter.JoinEnds | dlrover/python/training_event/exporter.py:148-149 | `close` stops waiting for the worker once that has ended or the timeout has passed |
| AsyncExporter.DrainWithinDeadline | dlrover/python/training_event/exporter.py:124-153 | in every run `close` drains, and the drain takes another event, exactly while the time given to `close` is not used up and, for the latter, an event is left; it takes the oldest |
| AsyncExporter.DrainExports | dlrover/python/training_event/exporter.py:129-138 | the drain hands the oldest event to the inner exporter, counts the outcome and goes on |
| AsyncExporter.WorkerExports | dlrover/python/training_event/exporter.py:82-93 | so does the worker |
| AsyncExporter.IdleWorkerEnds | dlrover/python/training_event/exporter.py:82-88 | a worker that waits on an empty queue ends within one second once the flag is cleared |
| AsyncExporter.DropCounterExact | dlrover/python/training_event/exporter.py:95-104 | until `close` has counted, the drop counter is the number of refusals stored, if its updates do not overlap |
| AsyncExporter.ClosedConserves | dlrover/python/training_event/exporter.py:140-156 | after `close`, submitted = exported + errors + dropped + in hand, if no export call was in progress and the timeout exceeds one wait of the worker |
| AsyncExporter.ShortTimeoutCountsTwice | dlrover/python/training_event/exporter.py:82-156 | for every other timeout some run counts one event as dropped and exports it as well |
| AsyncExporter.ClockBackMakesTwoConsumers | dlrover/python/training_event/exporter.py:140-153 | a clock that goes back lets the drain run beside the worker, for every timeout and queue size |
| AsyncExporter.LateExportIsNotCounted | dlrover/python/training_event/exporter.py:95-101 | an export call in progress during `close` can leave its event queued and uncounted |
| AsyncExporter.OverlappingDropsLoseOne | dlrover/python/training_event/exporter.py:102-104 | two overlapping updates of the drop counter lose one |
| Spans.SpanEvents | dlrover/python/training_event/emitter.py:156-215 | every sequence of calls on a span emits BEGIN at the first begin with the content laid down before it, END at the first terminal call after that with the content laid down up to it, and nothing else |
| Spans.FirstsAreFirst | dlrover/python/training_event/emitter.py:177-215 | the two positions are the first begin and the first terminal call after it |
| Spans.OverlayByKey | dlrover/python/training_event/emitter.py:238-321 | what calls lay down, key by key: what the last call that gives the key something gives it, its arguments before its own outcome, and what was there if none does |
| Spans.EndContentDrifts | dlrover/python/training_event/emitter.py:215-321 | what an END event of a span with a dict of its own shows later on is its content overlaid with the arguments of every later success and fail on the span, and of nothing else |
| Spans.EndContentStays | dlrover/python/training_event/emitter.py:215-321 | it is sure to stay what it was if and only if no success or fail on the span follows |
| Spans.LateOutcomeWins | dlrover/python/training_event/emitter.py:288-321 | a later outcome always overwrites the recorded one |
| Spans.InvRun | dlrover/python/training_event/emitter.py:146-236 | every reachable tree of spans has its BEGIN events where recorded and its parents begun |
| Spans.ChildBeginsAfterParent | dlrover/python/training_event/emitter.py:217-236 | events carry the id and name of their span, the name of a sub-span extends its parent's, and its BEGIN follows the parent's BEGIN |
| Spans.StageCopies | dlrover/python/training_event/emitter.py:217-236 | over every run: stage makes a sub-span exactly if its parent has begun and not ended, named after both, with a dict of its own that starts as the parent's of that moment overlaid with the given content |
| Spans.OpenAdopts | dlrover/python/training_event/emitter.py:146-154 | over every run: an opened span has no parent and holds the dict it was given, or a new one if that is empty |
| Spans.SpanStays | dlrover/python/training_event/emitter.py:146-154 | a span keeps its name, its parent and its dict |
| Spans.CellContent | dlrover/python/training_event/emitter.py:146-321 | a content dict holds what it held earlier overlaid with what the calls on all the spans that hold it, and its caller, have written since; this is what an END event shows to a later reader |
| Spans.SpanIsIndependent | dlrover/python/training_event/emitter.py:146-236 | the state and the events of a span whose dict nobody else writes into depend on its creation and the calls on it alone |
| Spans.OwnDictEvents | dlrover/python/training_event/emitter.py:146-321 | then its events in the shared log are those of SpanEvents |
| Spans.SharedDictLeaks | dlrover/python/training_event/emitter.py:151-215 | wherever two spans hold the same dict, what is written through one shows in the END event of the other |
| Spans.SamePassedDict | dlrover/python/training_event/emitter.py:146-154 | passing the same non-empty dict twice makes two such spans |
| Spans.SpanEventsInTree | dlrover/python/training_event/emitter.py:146-321 | for every span of every tree, whatever dicts the spans share: BEGIN at the first begin on it, END at the first terminal call after that, nothing else, with what the content dict holds at those moments |
| Spans.EndWithoutBegin | dlrover/python/training_event/emitter.py:156-215 | the events are a prefix of BEGIN, END, except exactly when the exporter refuses the BEGIN and accepts the END |
| SpanObjects.Exporter.Export | dlrover/python/training_event/emitter.py:180 | a synchronous exporter records the event unless it raises |
| SpanObjects.DurationSpan.constructor | dlrover/python/training_event/emitter.py:146-154 | a non-empty content dict is adopted, an absent or empty one is replaced by a new dict |
| SpanObjects.DurationSpan.Begin | dlrover/python/training_event/emitter.py:156-181 | new state and log are those of the call on the described span |
| SpanObjects.DurationSpan.End | dlrover/python/training_event/emitter.py:183-215 | new state and log are those of the call on the described span |
| SpanObjects.DurationSpan.ExtraArgs | dlrover/python/training_event/emitter.py:238-286 | the arguments are laid over the content unless the span has ended |
| SpanObjects.DurationSpan.Success | dlrover/python/training_event/emitter.py:288-303 | new state and log are those of the call, written even after the end |
| SpanObjects.DurationSpan.Fail | dlrover/python/training_event/emitter.py:305-321 | new state and log are those of the call, written even after the end |
| SpanObjects.DurationSpan.MakeStage | dlrover/python/training_event/emitter.py:217-236 | a sub-span with a dict of its own, exactly when the span has begun and not ended |
| Singleton.InvRun | dlrover/python/common/singleton.py:36-47 | the invariant of the two double-checked sections, in every interleaving with the base class |
| Singleton.BuiltAtMostOnce | dlrover/python/common/singleton.py:36-47 | for any number of threads and whatever a base class does: at most one instance lock is created, the constructor completes at most once, and a call returns that object or the one of the base class |
| Singleton.ConstructorMayRaise | dlrover/python/common/singleton.py:43-47 | a constructor that raises makes its call raise, with the lock released and no instance assigned |
| Singleton.CallsAnytime | dlrover/python/common/singleton.py:36-38 | any number of calls can begin in any state |
| Singleton.OneInstance | dlrover/python/common/singleton.py:36-47 | all returned objects are the same, if the base class does not get its instance while a thread constructs one for this class |
| Singleton.SharedLockOrders | dlrover/python/common/singleton.py:31-46 | that never happens if no base class is used as a singleton or it has its lock before the first call |
| Singleton.LateBaseSplits | dlrover/python/common/singleton.py:31-47 | from every other start some run returns two different objects |
| Singleton.ReturnedForGood | dlrover/python/common/singleton.py:47 | a returned object stays, so the objects compared may be of any two times |
| Singleton.InheritedInstanceWins | dlrover/python/common/singleton.py:31-47 | a class whose base class has an instance never builds its own |
| Singleton.SomeThreadMoves | dlrover/python/common/singleton.py:38-46 | no deadlock: while a call is unfinished some thread can move |
| Singleton.FalsyAlwaysBuilds | dlrover/python/common/singleton.py:43-47 | with falsy instances every call builds and returns another object |
| Barrier.InvRun | dlrover/python/util/store_util.py:22-59 | the counter counts the arrivals, indices differ, and the key is set once, by the participant with the last index |
| Barrier.NobodyPassesEarly | dlrover/python/util/store_util.py:22-60 | nobody passes before world_size participants have arrived, exactly one set the key, and with a world size below one nobody passes |
| Barrier.WaitingCanPass | dlrover/python/util/store_util.py:32-59 | once world_size have arrived every waiting participant can pass, after at most one step of another |
| Barrier.AllPass | dlrover/python/util/store_util.py:22-60 | on a fresh prefix a world of any positive size gets through the barrier, all of it |
| Barrier.GivesUp | dlrover/python/util/store_util.py:54-59 | a wait can end in a timeout, which leaves the participant counted as arrived |
| Barrier.OutForGood | dlrover/python/util/store_util.py:54-59 | a participant that has timed out never passes |
| Barrier.DeadSetterBlocksAll | dlrover/python/util/store_util.py:30-34 | if the participant with the last index stops before setting the key, nobody ever passes |
| Barrier.UsedPrefixLetsThrough | dlrover/python/util/store_util.py:51-52 | on a used prefix a newcomer passes alone |
| Ports.FindFreePortForHccl | dlrover/python/util/common_util.py:114-143 | for every start: the skip-ahead search ends and returns the least start, up to 10000 further on and at most 65500, whose 16 ports are free, and 0 exactly if there is none; past port 65500 and below 0, exactly what it returns or raises |
| Ports.FindFreePortInRange | dlrover/python/util/common_util.py:78-102 | for every range: both modes attempt each port at most once and only inside the range, return the first that binds, and raise only if every port failed, a port does not exist, or the range to draw from is empty; sequential mode goes upwards, ends and finds the least free port; random mode attempts the draws in order, repeats skipped, and has attempted all of them if it is not finished |
| Ports.DistinctByFirstIndex | dlrover/python/util/common_util.py:89-94 | skipping repeats keeps every element once, by first occurrence |
| Ports.SearchStops | dlrover/python/util/common_util.py:99-102 | as many failed ports as the range has means that all of it failed; fewer leave one untried |
| LabelSelector.SplitJoin | dlrover/python/util/k8s_util.py:21-32 | splitting undoes joining for pieces without the separator |
| LabelSelector.JoinSplit | dlrover/python/util/k8s_util.py:30-33 | for every text, joining undoes splitting, and there is one piece more than there are separators |
| LabelSelector.ParsesExactly | dlrover/python/util/k8s_util.py:30-33 | items parse if and only if each has exactly one '='; otherwise the unpacking raises |
| LabelSelector.LastItemWins | dlrover/python/util/k8s_util.py:30-33 | a key has a value if and only if the last item that names the key gives it that value |
| LabelSelector.ParsedIsClean | dlrover/python/util/k8s_util.py:30-33 | whatever a selector parses to has no ',' and no '=' in keys and values |
| LabelSelector.SelectorRoundTrip | dlrover/python/util/k8s_util.py:15-33 | for every dict in every iteration order, parsing the printed selector gives it back if and only if it is non-empty and without ',' and '=' |
| ConfigOrder.ConfigurationManager.constructor | dlrover/trainer/util/conf_util.py:112-116 | no class is registered and the first default priority is 2^30 |
| ConfigOrder.ConfigurationManager.Register | dlrover/trainer/util/conf_util.py:126-142 | the registry and the next default after a registration |
| ConfigOrder.ConfigurationManager.OverrideOrder | dlrover/trainer/util/conf_util.py:168-170 | the classes in the order in which they are merged |
| ConfigOrder.SortedFalls | dlrover/trainer/util/conf_util.py:168-170 | that order is a rearrangement by falling priority |
| ConfigOrder.SortedIsStable | dlrover/trainer/util/conf_util.py:168-170 | of two classes with the same priority the one that stands first in the registry comes first |
| ConfigOrder.OverrideOrderIs | dlrover/trainer/util/conf_util.py:126-170 | after any registrations, of any two classes the one whose last registration gave it the higher priority is merged first, and of two with the same priority, as a class and a base class whose priority it inherits, the one whose name was registered first |
| ConfigOrder.LaterDefaultOverrides | dlrover/trainer/util/conf_util.py:126-170 | of two classes with default priorities the one registered later is merged later and overrides |
| ConfigMerge.MergeAt | dlrover/trainer/util/conf_util.py:156-166 | one merge, at every path: leaves of the second side win and dict objects of the first side stay, except that below a dict object that both sides have there nothing changes (on shapes; for the dict objects see ConfigPrecedence) |
| ConfigMerge.LaterLeavesWin | dlrover/trainer/util/conf_util.py:156-166 | the later leaf wins and the other leaves stay, at every path, if and only if the leaves of the two sides fit (on shapes; for the dict objects see ConfigPrecedence) |
| ConfigMerge.FoldOwner | dlrover/trainer/util/conf_util.py:165-176 | the dict object that the merged shape holds at a path is that of the first configuration with a dict there |
| ConfigMerge.SkippedHasTwin | dlrover/trainer/util/conf_util.py:156-162 | whatever a skipped configuration brings to a path, an earlier one has brought |
| ConfigMerge.FoldAt | dlrover/trainer/util/conf_util.py:168-176 | the merged shape at every path as a function of what the configurations that are not skipped have there |
| ConfigMerge.LastUnskippedWins | dlrover/trainer/util/conf_util.py:168-176 | the leaf of the merged shape is that of the last configuration that defines the path and is not skipped |
| ConfigMerge.LastDefinitionWins | dlrover/trainer/util/conf_util.py:146-176 | it is the value of the last configuration, in the override order, that defines the path, if and only if the last one that is not skipped has the same value there (on shapes; for the dict objects see ConfigPrecedence) |
| ConfigMerge.FirstDefinitionIsSeen | dlrover/trainer/util/conf_util.py:168-176 | the first configuration that defines a path is never skipped |
| ConfigMerge.NothingSharedNobodySkipped | dlrover/trainer/util/conf_util.py:168-176 | without dict objects shared at one path nobody is skipped |
| ConfigMerge.FirstDictIsAdopted | dlrover/trainer/util/conf_util.py:165-166 | the dict that the merged shape has at a path is the very object of the first configuration with a dict there |
| ConfigMerge.MergingAgainChangesNothing | dlrover/trainer/util/conf_util.py:112-177 | folding the same configurations again changes nothing at any path, although the merged shape shares dict objects with them |
| ConfigMerge.SamePathsSameShape | dlrover/trainer/util/conf_util.py:156-166 | nested dicts that agree at every path are the same |
| ConfigMerge.LaterRunChangesNothing | dlrover/trainer/util/conf_util.py:145-177 | a later run leaves the merged shape as it is, also when the outermost dicts are built anew |
| ConfigMerge.SharedDictBreaksPrecedence | dlrover/trainer/util/conf_util.py:146-176 | a last definition that loses, without conflicts, because it sits in a shared dict |
| ConfigMergeObjects.MergeInto | dlrover/trainer/util/conf_util.py:156-166 | if every dict object has one place, the recursive in-place merge leaves the dict objects with the contents of the merged shape and writes to no object outside the first dict |
| ConfigMergeObjects.MergeSubDict | dlrover/trainer/util/conf_util.py:158-162 | the branch for two dicts completes its key and keeps all other keys and the second side |
| ConfigMergeObjects.StoreEntry | dlrover/trainer/util/conf_util.py:163-166 | so do the branches that store, which adopt a dict object as it is |
| ConfigMergeObjects.CompatibleKeeps | dlrover/trainer/util/conf_util.py:156-166 | configurations without conflicts meet the condition of the loop |
| ConfigMergeObjects.NothingSharedKeeps | dlrover/trainer/util/conf_util.py:156-166 | so do configurations with conflicts that share no dict |
| ConfigMergeObjects.MergeConfigs | dlrover/trainer/util/conf_util.py:168-175 | if every dict object has one place, the loop over the configurations leaves the dict objects with the folded contents; without conflicts each configuration keeps what it does not share |
| ConfigMergeObjects.ReadyAtFirst | dlrover/trainer/util/conf_util.py:112-116 | before the first run every set of placed configurations qualifies |
| ConfigMergeObjects.MatchingIsCoherent | dlrover/trainer/util/conf_util.py:147-176 | nested dicts as they are before a run agree on what their shared dict objects contain |
| ConfigMergeObjects.MergeConfigsAgain | dlrover/trainer/util/conf_util.py:112-177 | then after a later run the dict objects hold what they held before it |
| ConfigPrecedence.HeapAtShape | dlrover/trainer/util/conf_util.py:156-166 | dict objects that hold what a shape says are looked up as the shape says |
| ConfigPrecedence.OnePlaceIsPlaced | dlrover/trainer/util/conf_util.py:156-166 | if no dict object stands at two different paths, every one can be given its place |
| ConfigPrecedence.MergeDicts | dlrover/trainer/util/conf_util.py:156-166 | if no dict object stands at two different paths, then after the merge looking up finds the later leaf, and the other leaves unchanged, at every path, if and only if the leaves of the two sides fit |
| ConfigPrecedence.MergeRegistered | dlrover/trainer/util/conf_util.py:145-177 | if no dict object stands at two different paths of the configurations, then after the first run looking up a leaf path finds what the last configuration that defines it held there, if and only if the last one that is not skipped has the same value |
| ConfigPrecedence.NotItsOwnAncestor | dlrover/trainer/util/conf_util.py:156-166 | no dict object of a finite nested dict stands above itself |
| ConfigPrecedence.BuildOneLeaf | dlrover/trainer/util/conf_util.py:156-166 | a nested dict that defines one leaf and nothing else |
| ConfigPrecedence.MergeOneLeaf | dlrover/trainer/util/conf_util.py:156-166 | merging such a dict writes that leaf into the dict object its path leads to and nowhere else, wherever the dict objects stand |
| ConfigPrecedence.TwoPlacesBreakPrecedence | dlrover/trainer/util/conf_util.py:156-166 | for every nested dict with a dict object at two different paths, every key and every value: a second side that defines nothing but the leaf below the one path sets it below the other, and unless the first side has a dict there the leaves of the two sides fit |

## Left out

- Sockets beyond a stream of chunks: a partial `socket.send`, pickling, timeouts, the retry decorator, reconnection; pickling is taken as the identity.
- SharedMemory, the checkpoint shm handlers, and `SharedLock.locked` on the client, which returns the response object.
- Malformed requests to the SharedDict and SharedQueue servers, and `qsize`.
- SharedDict.SetsComplete: says that the sets can complete, not that a scheduler lets them.
- SharedDict.FreshGet: covers server-side gets; `get(local=True)` returns the local dict unconditionally.
- SharedLock.VanishedOwnerReleases: assumes that the handler thread keeps running, not when it does.
- AsyncExporter.ClosedConserves: takes a get with a timeout to end within that timeout, and the worker to enter the get in the instant in which it finds `_running` set; one `start` and one `close`; a second close, the log throttling, an inner exporter that raises `queue.Empty`, and error counting by two threads are not modelled.
- AsyncExporter.SingleConsumerInOrder: takes `join` to return early only for a dead worker; time is an integer of milliseconds.
- Retention: paths and the contents of checkpoints; a step is a number, its directory an element of a set, and the tracker holds a number or nothing.
- Spans: instants, context managers, the JSON formatting that truncates or rejects content, and colliding event ids; a forest numbers its spans.
- Singleton: the `singleton` decorator, whose one lock guards everything, constructors that call back into `singleton_instance`, and more than one base class that is used as a singleton.
- Barrier: the store itself; `add` is atomic and `get` blocks until the key is set or times out.
- Ports: the set of bindable ports is fixed during a search; `find_free_port_in_set` is a plain loop.
- Ports.FindFreePortInRange: whether further draws would end a random search; `draws` stands for the random numbers.
- ConfigMerge: `_get_attr` and the Configuration wrapper; leaves are integers.
- ConfigMergeObjects.MergeInto: the contents after merging into nested dicts with a dict object at two paths, beyond what ConfigPrecedence.TwoPlacesBreakPrecedence says; dicts that contain themselves.
- ConfigMergeObjects.MergeConfigs: runs in which a leaf replaces a dict that a later configuration shares.
- `read_last_n_lines`, node and resource records, environment helpers: one-loop facts and record updates.
- The master services, Kubernetes, Ray and brain clients, generated protobuf code, the Go operator, xpu_timer and the training scripts.
