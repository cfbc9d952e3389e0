/**
 * The processor position tracker: a table of processor names and the id of
 * the last event each has processed, and non-blocking per-name locks held
 * by database connections.
 *
 * The table and the locks live in the database and are shared by every
 * tracker; a Store is that shared state, and each Tracker works on it
 * through one connection.
 */
module ProcessorTracker {
  import opened Wrappers
  import opened StringOrder

  /** Identifies a database connection (session); a lock belongs to one. */
  type ConnectionId = nat

  datatype TrackerError =
    | UnableToLockProcessor     // EventSourcery::UnableToLockProcessorError
    | WorkRaised(error: string) // the error raised by the work of processing_event, re-raised unchanged

  datatype Outcome = Done | Failed(error: TrackerError)

  /** How the work block given to processing_event ends. */
  datatype Work = Completes | Raises(error: string)

  /** A connection may take the lock on `name` unless another connection holds it. */
  predicate CanLock(locks: map<string, ConnectionId>, name: string, connection: ConnectionId)
  {
    name !in locks || locks[name] == connection
  }

  /** The database state the trackers share. */
  class Store {
    var tableExists: bool
    var positions: map<string, nat>        // name -> last_processed_event_id
    var locks: map<string, ConnectionId>   // name -> connection holding its advisory lock

    /** Without the table there are no rows. */
    ghost predicate Valid()
      reads this
    {
      !tableExists ==> positions == map[]
    }

    /** A database without the tracker table and with no lock taken. */
    constructor ()
      ensures Valid() && !tableExists && positions == map[] && locks == map[]
    {
      tableExists := false;
      positions := map[];
      locks := map[];
    }
  }

  class Tracker {
    const store: Store
    const connection: ConnectionId
    const autoCreate: bool           // the auto_create_projector_tracker setting
    const obtainProcessorLock: bool

    constructor (store: Store, connection: ConnectionId, autoCreate: bool, obtainProcessorLock: bool)
      ensures this.store == store && this.connection == connection
      ensures this.autoCreate == autoCreate && this.obtainProcessorLock == obtainProcessorLock
    {
      this.store := store;
      this.connection := connection;
      this.autoCreate := autoCreate;
      this.obtainProcessorLock := obtainProcessorLock;
    }

    /**
     * setup(name = nil): create the table if allowed and missing; fail if it
     * is still missing. With a name, take the processor's lock (unless this
     * tracker skips locking) and make sure the name has a row, starting at 0.
     * A failure changes no row and no lock.
     */
    method Setup(name: Option<string>) returns (r: Outcome)
      requires store.Valid()
      modifies store
      ensures store.Valid()
      ensures store.tableExists == (old(store.tableExists) || autoCreate)
      ensures r == Done <==>
        store.tableExists &&
        (name.None? || !obtainProcessorLock || CanLock(old(store.locks), name.value, connection))
      ensures r != Done ==>
        r == Failed(UnableToLockProcessor) &&
        store.positions == old(store.positions) && store.locks == old(store.locks)
      ensures r == Done && name.None? ==>
        store.positions == old(store.positions) && store.locks == old(store.locks)
      ensures r == Done && name.Some? ==>
        var n := name.value;
        store.positions == (if n in old(store.positions) then old(store.positions) else old(store.positions)[n := 0]) &&
        store.locks == (if obtainProcessorLock then old(store.locks)[n := connection] else old(store.locks))
      ensures forall m :: LastProcessedEventId(m) == old(LastProcessedEventId(m))
    {
      if autoCreate && !store.tableExists {
        store.tableExists := true;
      }
      if !store.tableExists {
        return Failed(UnableToLockProcessor);
      }
      if name.Some? {
        var n := name.value;
        if obtainProcessorLock {
          if !CanLock(store.locks, n, connection) {
            return Failed(UnableToLockProcessor);
          }
          store.locks := store.locks[n := connection];
        }
        if n !in store.positions {
          store.positions := store.positions[n := 0];
        }
      }
      r := Done;
    }

    /** last_processed_event_id(name): the recorded position, 0 when the name has no row. */
    function LastProcessedEventId(name: string): nat
      reads store
    {
      if name in store.positions then store.positions[name] else 0
    }

    /** processed_event(name, id): set the name's row to `id`; a name without a row is left without one. */
    method ProcessedEvent(name: string, id: nat)
      requires store.Valid()
      modifies store
      ensures store.Valid()
      ensures store.positions == if name in old(store.positions) then old(store.positions)[name := id] else old(store.positions)
      ensures store.tableExists == old(store.tableExists) && store.locks == old(store.locks)
      ensures name in old(store.positions) ==> LastProcessedEventId(name) == id
      ensures forall m :: m != name ==> LastProcessedEventId(m) == old(LastProcessedEventId(m))
    {
      if name in store.positions {
        store.positions := store.positions[name := id];
      }
    }

    /**
     * processing_event(name, id) { work }: run the work; only when it
     * completes record `id`, otherwise re-raise its error and change nothing.
     */
    method ProcessingEvent(name: string, id: nat, work: Work) returns (r: Outcome)
      requires store.Valid()
      modifies store
      ensures store.Valid()
      ensures work.Raises? ==>
        r == Failed(WorkRaised(work.error)) &&
        store.positions == old(store.positions) && store.locks == old(store.locks) &&
        store.tableExists == old(store.tableExists)
      ensures work.Completes? ==>
        r == Done &&
        store.positions == (if name in old(store.positions) then old(store.positions)[name := id] else old(store.positions)) &&
        store.locks == old(store.locks) && store.tableExists == old(store.tableExists)
      ensures work.Raises? ==> forall m :: LastProcessedEventId(m) == old(LastProcessedEventId(m))
      ensures work.Completes? && name in old(store.positions) ==> LastProcessedEventId(name) == id
    {
      match work
      case Raises(e) =>
        r := Failed(WorkRaised(e));
      case Completes =>
        ProcessedEvent(name, id);
        r := Done;
    }

    /** reset_last_processed_event_id(name): put the name's row back to 0. */
    method ResetLastProcessedEventId(name: string)
      requires store.Valid()
      modifies store
      ensures store.Valid()
      ensures store.positions == if name in old(store.positions) then old(store.positions)[name := 0] else old(store.positions)
      ensures store.tableExists == old(store.tableExists) && store.locks == old(store.locks)
      ensures LastProcessedEventId(name) == 0
      ensures forall m :: m != name ==> LastProcessedEventId(m) == old(LastProcessedEventId(m))
    {
      if name in store.positions {
        store.positions := store.positions[name := 0];
      }
    }

    /** tracked_processors: every name with a row, ascending. */
    method TrackedProcessors() returns (names: seq<string>)
      ensures Sorted(names) && |names| == |store.positions|
      ensures forall n :: n in names <==> n in store.positions
    {
      names := [];
      var rest := store.positions.Keys;
      while rest != {}
        invariant Sorted(names)
        invariant |names| + |rest| == |store.positions|
        invariant forall n :: n in store.positions <==> n in rest || n in names
        invariant forall n :: n in rest ==> n !in names
        decreases |rest|
      {
        var n :| n in rest;
        names := Insert(names, n);
        rest := rest - {n};
      }
    }
  }
}
