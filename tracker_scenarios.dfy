/**
 * The examples the tracker's test suite runs, as client methods whose
 * postconditions are the expectations of those examples. Each starts from a
 * database without the tracker table; the tracker under test uses
 * connection 1 and the default settings (auto-create on, locking on).
 */
module TrackerScenarios {
  import opened Wrappers
  import opened StringOrder
  import opened ProcessorTracker

  const Blah := "blah"

  /** `setup_table`: drop the table, then set up the processor under test. */
  method SetupTable() returns (store: Store, tracker: Tracker)
    ensures fresh(store) && store.Valid() && tracker.store == store
    ensures tracker.connection == 1 && tracker.autoCreate && tracker.obtainProcessorLock
    ensures store.tableExists && store.positions == map[Blah := 0] && store.locks == map[Blah := 1]
  {
    store := new Store();
    tracker := new Tracker(store, 1, true, true);
    var r := tracker.Setup(Some(Blah));
  }

  /** With auto-create on, setup creates the table and a row starting at 0. */
  method SetupCreatesTableAndEntry() returns (tableExists: bool, id: nat)
    ensures tableExists && id == 0
  {
    var store := new Store();
    var tracker := new Tracker(store, 1, true, true);
    var r := tracker.Setup(Some(Blah));
    tableExists := store.tableExists;
    id := tracker.LastProcessedEventId(Blah);
  }

  /** With auto-create off and no table, setup raises UnableToLockProcessorError. */
  method SetupWithoutAutoCreateFails() returns (r: Outcome)
    ensures r == Failed(UnableToLockProcessor)
  {
    var store := new Store();
    var tracker := new Tracker(store, 1, false, true);
    r := tracker.Setup(Some(Blah));
  }

  /** processed_event records the given id. */
  method ProcessedEventUpdatesEntry() returns (id: nat)
    ensures id == 1
  {
    var store, tracker := SetupTable();
    tracker.ProcessedEvent(Blah, 1);
    id := tracker.LastProcessedEventId(Blah);
  }

  /** processing_event whose block succeeds marks the event as processed. */
  method ProcessingEventSucceeds() returns (r: Outcome, id: nat)
    ensures r == Done && id == 1
  {
    var store, tracker := SetupTable();
    r := tracker.ProcessingEvent(Blah, 1, Completes);
    id := tracker.LastProcessedEventId(Blah);
  }

  /** processing_event whose block raises re-raises and does not mark the event. */
  method ProcessingEventRaises() returns (before: nat, r: Outcome, after: nat)
    ensures before == 0 && r == Failed(WorkRaised("boo")) && after == 0
  {
    var store, tracker := SetupTable();
    before := tracker.LastProcessedEventId(Blah);
    r := tracker.ProcessingEvent(Blah, 1, Raises("boo"));
    after := tracker.LastProcessedEventId(Blah);
  }

  /** A tracker on another connection cannot set up a processor whose lock is held. */
  method OtherConnectionCannotLock() returns (r: Outcome)
    ensures r == Failed(UnableToLockProcessor)
  {
    var store, tracker := SetupTable();
    var other := new Tracker(store, 2, true, true);
    r := other.Setup(Some(Blah));
  }

  /**
   * Lock exclusivity for any name and any two connections: after a locking
   * setup by one connection succeeds, a locking setup of the same name by
   * another connection fails and changes nothing, while the first
   * connection may set the name up again.
   */
  method LockIsExclusive(name: string, a: ConnectionId, b: ConnectionId)
    returns (first: Outcome, second: Outcome, again: Outcome, id: nat)
    requires a != b
    ensures first == Done && second == Failed(UnableToLockProcessor) && again == Done && id == 0
  {
    var store := new Store();
    var holder := new Tracker(store, a, true, true);
    var other := new Tracker(store, b, true, true);
    first := holder.Setup(Some(name));
    second := other.Setup(Some(name));
    again := holder.Setup(Some(name));
    id := holder.LastProcessedEventId(name);
  }

  /** ... unless it was built with obtain_processor_lock: false. */
  method OtherConnectionWithoutLocking() returns (r: Outcome)
    ensures r == Done
  {
    var store, tracker := SetupTable();
    var other := new Tracker(store, 2, true, false);
    r := other.Setup(Some(Blah));
  }

  /** reset_last_processed_event_id puts the position back to 0. */
  method ResetGoesBackToZero() returns (id: nat)
    ensures id == 0
  {
    var store, tracker := SetupTable();
    tracker.ProcessedEvent(Blah, 1);
    tracker.ResetLastProcessedEventId(Blah);
    id := tracker.LastProcessedEventId(Blah);
  }

  /** tracked_processors after a nameless setup, and after setting up :one and :two. */
  method TrackedProcessorsListed() returns (none: seq<string>, two: seq<string>)
    ensures none == [] && two == ["one", "two"]
  {
    var store := new Store();
    var tracker := new Tracker(store, 1, true, true);
    var r := tracker.Setup(None);
    none := tracker.TrackedProcessors();
    r := tracker.Setup(Some("one"));
    r := tracker.Setup(Some("two"));
    two := tracker.TrackedProcessors();
    assert Less("one", "two") && !Less("two", "one");
    assert two[0] in store.positions && two[1] in store.positions;
    LessIrreflexive(two[0]);
  }
}
