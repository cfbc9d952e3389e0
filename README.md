# Interval-callback queue and processor position tracker

A Dafny model of two parts of the Postgres adapter of EventSourcery.

**QueueWithIntervalCallback** is a FIFO queue. Its blocking `pop` does not
wait silently. It polls: when an item is present it takes the head. Otherwise,
if a callback interval is set and strictly more than that interval has passed
since the wait began or since the callback last fired, it calls the callback
and restarts the timer. Then it sleeps one poll interval and polls again.
`pop(true)` is the plain `::Queue#pop(true)`: it takes the head, or fails on an
empty queue, and never calls the callback.

In the model:
- Time is an integer clock in ticks, and each sleep advances it by the poll interval.
- The items other threads push while `pop` waits are an input schedule: batch `k` is pushed during the `k`-th sleep.
- Callback invocations go into a ghost trace that records the callback and the clock reading of each call.
- The loop (`PopWithIntervalCallback`) is proved equal to the function `Wait`, and the queue's promises are lemmas about `Wait`.

**The processor position tracker** keeps one row per processor name with
`last_processed_event_id`. It also uses a non-blocking advisory lock per name,
held by one database connection. The implementation file is not part of this
model: its contract comes from the tracker's test suite
(`spec/event_sourcery/postgres/tracker_spec.rb`). The database state that all
trackers share is the class `Store`, holding the table as `map<string, nat>`
and the lock owners as `map<string, ConnectionId>`. A `Tracker` works on that
store through one connection. Auto-create and `obtain_processor_lock` are
constructor parameters. The work block of `processing_event` is a `Work`
value, either `Completes` or `Raises(error)`. The examples of the test suite
are client methods in `TrackerScenarios`, and their postconditions are the
examples' expectations.

Notes on the code of the queue:
- Line 24 compares strictly (`>`), so at exactly one callback interval the callback does not fire.
- `pop(true)` is `::Queue#pop(true)`, which raises on an empty queue instead of waiting.
- 0 is truthy in Ruby, so an interval of 0 enables the callback.

Files: `wrappers.dfy` (Option), `queue_with_interval_callback.dfy`,
`string_order.dfy` (the ascending order of names and sorted insertion),
`tracker.dfy`, `tracker_scenarios.dfy`.

## Model

| member | source | states |
|---|---|---|
| `IntervalCallbackQueue.QueueWithIntervalCallback.constructor` | lib/event_sourcery/postgres/queue_with_interval_callback.rb:6-11 | the queue starts empty with the given callback, callback interval and poll interval, and no call made |
| `IntervalCallbackQueue.QueueWithIntervalCallback.SetCallback` | lib/event_sourcery/postgres/queue_with_interval_callback.rb:4 | the callback accessor's writer replaces the callback and changes nothing else |
| `IntervalCallbackQueue.QueueWithIntervalCallback.Push` | lib/event_sourcery/postgres/queue_with_interval_callback.rb:3 | the inherited push appends at the tail and calls no callback |
| `IntervalCallbackQueue.QueueWithIntervalCallback.PopNonBlock` | lib/event_sourcery/postgres/queue_with_interval_callback.rb:13-14 | on a non-empty queue it returns the head and leaves the tail; on an empty one it fails and changes nothing; it never calls the callback |
| `IntervalCallbackQueue.QueueWithIntervalCallback.PopWithIntervalCallback` | lib/event_sourcery/postgres/queue_with_interval_callback.rb:20-30 | the loop returns, leaves and calls exactly what `Wait` says; when an item is already present it returns the head at once with no callback |
| `IntervalCallbackQueue.QueueWithIntervalCallback.Pop` | lib/event_sourcery/postgres/queue_with_interval_callback.rb:13-16 | with `true` it is the non-blocking pop (head, or failure when empty, never a callback); otherwise it is the waiting loop |
| `IntervalCallbackQueue.Due` | lib/event_sourcery/postgres/queue_with_interval_callback.rb:24 | the timer test: an interval is set and the clock is strictly past the timer start plus the interval |
| `IntervalCallbackQueue.Wait` | lib/event_sourcery/postgres/queue_with_interval_callback.rb:22-29 | one iteration after another: take the head if there is one; otherwise fire and restart the timer when due, sleep one poll interval and take in the pushed batch |
| `IntervalCallbackQueue.WaitFrom` | lib/event_sourcery/postgres/queue_with_interval_callback.rb:20-29 | a whole waiting pop: the timer starts at the clock reading when the pop begins |
| `IntervalCallbackQueue.WaitBounds` | lib/event_sourcery/postgres/queue_with_interval_callback.rb:22-29 | one sleep per scheduled batch at most; the clock never goes back; firings are only appended; at most one firing per idle iteration; a wait ends with no item only once the schedule is used up and the queue is empty |
| `IntervalCallbackQueue.WaitClock` | lib/event_sourcery/postgres/queue_with_interval_callback.rb:28 | the clock at the end of a wait is the clock at its start plus one poll interval per sleep |
| `IntervalCallbackQueue.WaitTakesHead` | lib/event_sourcery/postgres/queue_with_interval_callback.rb:22-23 | FIFO: the item returned is the head of the initial contents followed by the batches pushed during the wait, and the rest stays queued in order; no item is returned only if nothing was ever queued |
| `IntervalCallbackQueue.DisabledNeverFires` | lib/event_sourcery/postgres/queue_with_interval_callback.rb:24 | with a nil or false interval the callback never fires, however long the wait |
| `IntervalCallbackQueue.FiringsSpaced` | lib/event_sourcery/postgres/queue_with_interval_callback.rb:24-26 | each firing comes strictly more than the interval after the timer start, and the timer restarts at each firing |
| `IntervalCallbackQueue.PopFiringsSpaced` | lib/event_sourcery/postgres/queue_with_interval_callback.rb:21-26 | in one pop, the first firing is more than an interval after the start and each later one more than an interval after the previous |
| `IntervalCallbackQueue.IdleWaitFires` | lib/event_sourcery/postgres/queue_with_interval_callback.rb:24-25 | while the queue stays empty, once the clock is strictly past timer start plus interval, the callback has fired at least once |
| `IntervalCallbackQueue.IdlePopFires` | lib/event_sourcery/postgres/queue_with_interval_callback.rb:21-28 | a whole pop over an idle schedule that spans more than the interval (sleeps times poll interval) fires the callback at least once |
| `IntervalCallbackQueue.IdleEndsArmed` | lib/event_sourcery/postgres/queue_with_interval_callback.rb:24-26 | the timer re-arms: an idle wait never ends more than one interval after its last firing (or the timer start), so after each further interval of idleness the callback fires again |
| `IntervalCallbackQueue.IdlePopEndsArmed` | lib/event_sourcery/postgres/queue_with_interval_callback.rb:21-28 | in a whole idle pop, the clock at the end is at most one interval past the last firing or the start |
| `IntervalCallbackQueue.ZeroIntervalFiresEveryTick` | lib/event_sourcery/postgres/queue_with_interval_callback.rb:24 | an interval of 0 is not disabled: in an idle wait with an advancing clock, every timer check fires whenever the clock has moved since the timer start |
| `IntervalCallbackQueue.ZeroIntervalPop` | lib/event_sourcery/postgres/queue_with_interval_callback.rb:21-28 | with interval 0, an idle pop fires once per sleep |
| `IntervalCallbackQueue.ExactIntervalDoesNotFire` | lib/event_sourcery/postgres/queue_with_interval_callback.rb:24 | at exactly one interval after the start the callback does not fire; at the next check it does |
| `IntervalCallbackQueue.PushPopInOrder` | lib/event_sourcery/postgres/queue_with_interval_callback.rb:3 | two pushes then two pops give the items back in push order, with no callback call |
| `StringOrder.Less` | spec/event_sourcery/postgres/tracker_spec.rb:152-153 | the ascending order of processor names: lexicographic by character code, a proper prefix first |
| `StringOrder.LessIrreflexive` | spec/event_sourcery/postgres/tracker_spec.rb:152-153 | no name sorts before itself |
| `StringOrder.LessTransitive` | spec/event_sourcery/postgres/tracker_spec.rb:152-153 | the ascending order of names is transitive |
| `StringOrder.LessTotal` | spec/event_sourcery/postgres/tracker_spec.rb:152-153 | of two distinct names, one sorts before the other |
| `StringOrder.Insert` | spec/event_sourcery/postgres/tracker_spec.rb:152-153 | inserting a new name into an ascending list gives an ascending list holding exactly the old names and the new one |
| `StringOrder.LessBeforeAll` | spec/event_sourcery/postgres/tracker_spec.rb:152-153 | a name below the head of an ascending list is below every element |
| `ProcessorTracker.CanLock` | spec/event_sourcery/postgres/tracker_spec.rb:94-111 | the non-blocking lock attempt succeeds unless another connection holds the name's lock |
| `ProcessorTracker.Store.constructor` | spec/event_sourcery/postgres/tracker_spec.rb:23 | a database with no tracker table, no row and no lock |
| `ProcessorTracker.Tracker.constructor` | spec/event_sourcery/postgres/tracker_spec.rb:2 | a tracker on one connection with the given auto-create and locking settings |
| `ProcessorTracker.Tracker.Setup` | spec/event_sourcery/postgres/tracker_spec.rb:21-60 | the table exists afterwards exactly when it did before or auto-create is on; setup succeeds exactly when the table exists and, for a name with locking on, no other connection holds the lock; on success a named setup takes the lock and adds a row at 0 when the name had none; on failure it raises the lock error and changes no row and no lock; no recorded position ever changes |
| `ProcessorTracker.Tracker.ProcessedEvent` | spec/event_sourcery/postgres/tracker_spec.rb:62-69 | the name's row is set to the given id, so the position then reads `id`; every other name's position, the locks and the table are unchanged |
| `ProcessorTracker.Tracker.ProcessingEvent` | spec/event_sourcery/postgres/tracker_spec.rb:71-92 | completed work records the id as processed_event does, so the position then reads `id`; raising work re-raises its error unchanged and changes no position, lock or table |
| `ProcessorTracker.Tracker.LastProcessedEventId` | spec/event_sourcery/postgres/tracker_spec.rb:117-128 | the recorded position of the name, 0 when it has no row |
| `ProcessorTracker.Tracker.ResetLastProcessedEventId` | spec/event_sourcery/postgres/tracker_spec.rb:130-138 | the name's position reads 0 afterwards; every other position, the locks and the table are unchanged |
| `ProcessorTracker.Tracker.TrackedProcessors` | spec/event_sourcery/postgres/tracker_spec.rb:140-161 | returns every name with a row, each once, strictly ascending |
| `TrackerScenarios.SetupTable` | spec/event_sourcery/postgres/tracker_spec.rb:16-19 | setting up the processor on a fresh database gives the table, one row at 0 and the lock held by the tracker's connection |
| `TrackerScenarios.SetupCreatesTableAndEntry` | spec/event_sourcery/postgres/tracker_spec.rb:26-36 | with auto-create on, setup creates the table and the processor's position is 0 |
| `TrackerScenarios.SetupWithoutAutoCreateFails` | spec/event_sourcery/postgres/tracker_spec.rb:51-59 | with auto-create off and no table, setup fails with the lock error |
| `TrackerScenarios.ProcessedEventUpdatesEntry` | spec/event_sourcery/postgres/tracker_spec.rb:117-128 | after processed_event(name, 1) the position is 1 |
| `TrackerScenarios.ProcessingEventSucceeds` | spec/event_sourcery/postgres/tracker_spec.rb:74-80 | work that completes marks the event processed |
| `TrackerScenarios.ProcessingEventRaises` | spec/event_sourcery/postgres/tracker_spec.rb:82-91 | work that raises re-raises its error and the position stays 0 |
| `TrackerScenarios.OtherConnectionCannotLock` | spec/event_sourcery/postgres/tracker_spec.rb:94-102 | a second tracker on another connection fails setup with the lock error while the first holds the lock |
| `TrackerScenarios.LockIsExclusive` | spec/event_sourcery/postgres/tracker_spec.rb:94-102 | for any name and any two distinct connections: the first locking setup succeeds, the other connection's locking setup then fails with the lock error, the holder may set up again, and the position still reads 0 |
| `TrackerScenarios.OtherConnectionWithoutLocking` | spec/event_sourcery/postgres/tracker_spec.rb:104-111 | with locking off, the second tracker's setup succeeds |
| `TrackerScenarios.ResetGoesBackToZero` | spec/event_sourcery/postgres/tracker_spec.rb:130-138 | processed_event(name, 1) then reset gives position 0 |
| `TrackerScenarios.TrackedProcessorsListed` | spec/event_sourcery/postgres/tracker_spec.rb:140-161 | no names after a nameless setup; `["one", "two"]` after setting up one and two |

## Left out

- Real time, `sleep` and the float seconds of the poll and callback intervals: time is an integer clock in ticks, and a sleep advances it by the poll interval in ticks.
- Blocking forever: a waiting pop is followed only for as long as its arrival schedule lasts. When the schedule ends with the queue still empty, the model returns `StillWaiting`, where the real pop goes on polling.
- Thread safety of `::Queue` and wake-ups across threads. Other threads' pushes are the arrival schedule. They are observed only at the emptiness check after a sleep.
- The callback's own effects: a call is recorded in a ghost trace (which callback, at what clock reading). The callback's running time is not modelled, so the clock does not move during a call.
- `PopWithIntervalCallback`: a callback that raises or throws (as a handler's `throw :stop` does) ends the pop at once with the queue unchanged, and a `StopIteration` from it makes `loop` return normally. The model's callback always returns, so the wait always goes on.
- Clock readings: the clock moves only during sleeps, and by exactly the poll interval. So the first timer check reads the same instant as the timer start at line 21, where the program reads a strictly later one. With interval 0 the program can therefore fire at the first check too, one firing more than `ZeroIntervalPop` counts. A real `sleep` also overshoots, so the reading never lands on exactly one interval as `ExactIntervalDoesNotFire` assumes.
- The constructor's defaults (`callback: proc { }`, the callback interval read from the global configuration, `poll_interval: 0.1`): all three are explicit constructor arguments.
- The notification poll waiter (LISTEN/NOTIFY listener thread, `throw :stop`, killing the thread): concurrency and database I/O, not modelled.
- `lib/event_sourcery/postgres.rb` holds only `require` lines and an empty module.
- Tracker implementation: `lib/event_sourcery/postgres/tracker.rb` is not part of this model. Where the tests leave a choice open, the model chooses as follows:
  - setup tries the lock before it adds the row, so a failed setup changes no row;
  - the position of a name without a row reads as 0;
  - processed_event and reset on a name without a row change nothing, since rows are created only by setup.
- SQL table creation details, string versus symbol table names, and Ruby symbols as processor names (names are strings).
- The advisory lock's hashing of a name to an integer key: locks are keyed by the name itself.
- Lock release and connection lifetime (`release_advisory_locks`), and the re-entrant lock count of Postgres advisory locks: a connection that holds a lock can take it again.
- The database error the source raises when processed_event runs before the tracker table exists: the model has no rows then, so the call changes nothing.
- Database collation: the ascending order of `tracked_processors` is modelled as the order of character codes.
