/**
 * A FIFO queue whose blocking pop, while it waits for an item, invokes a
 * callback each time more than a callback interval has passed since the wait
 * began or since the callback last fired.
 *
 * Time is an integer clock in ticks; every sleep of the polling loop advances
 * it by the poll interval. Items pushed by other threads while pop waits are
 * given as a schedule: arrivals[k] is what was pushed during the k-th sleep.
 * Invocations of the callback are recorded in a ghost trace.
 */
module IntervalCallbackQueue {
  import opened Wrappers

  /** Ruby's nil or false disables the callback; a number (here in ticks) enables it. */
  datatype CallbackInterval = Disabled | Every(ticks: int)

  /** One invocation: the callback the accessor held at that moment, and the clock reading. */
  datatype Call<C> = Call(callback: C, at: int)

  /** What pop hands back to its caller. */
  datatype PopResult<T> =
    | Popped(item: T)
    | QueueEmpty    // ::Queue#pop(true) on an empty queue raises ThreadError
    | StillWaiting  // the arrival schedule ended while the queue was still empty

  /** The test of the polling loop: a set interval, and strictly more than it elapsed. */
  predicate Due(interval: CallbackInterval, time: int, now: int)
  {
    interval.Every? && now > time + interval.ticks
  }

  /**
   * The outcome of a wait: the item returned (None if the schedule ran out),
   * the queue left behind, the clock readings at which the callback fired,
   * the number of sleeps taken and the clock reading at the end.
   */
  datatype Waited<T> = Waited(item: Option<T>, rest: seq<T>, fired: seq<int>, sleeps: nat, clock: int)

  /**
   * The polling loop as a function. `time` is the timer start (the moment the
   * wait began or the callback last fired), `now` the current clock, `fired`
   * the firings so far and `sleeps` the sleeps so far.
   */
  function Wait<T>(items: seq<T>, interval: CallbackInterval, poll: nat, time: int, now: int,
                   arrivals: seq<seq<T>>, fired: seq<int>, sleeps: nat): Waited<T>
    decreases |arrivals|
  {
    if items != [] then Waited(Some(items[0]), items[1..], fired, sleeps, now)
    else
      var due := Due(interval, time, now);
      var fired' := if due then fired + [now] else fired;
      var time' := if due then now else time;
      if arrivals == [] then Waited(None, [], fired', sleeps, now)
      else Wait(arrivals[0], interval, poll, time', now + poll, arrivals[1..], fired', sleeps + 1)
  }

  /** A whole pop: the wait starts at clock reading `start`, with the timer started then. */
  function WaitFrom<T>(items: seq<T>, interval: CallbackInterval, poll: nat, start: int,
                       arrivals: seq<seq<T>>): Waited<T>
  {
    Wait(items, interval, poll, start, start, arrivals, [], 0)
  }

  /** The calls made to callback `c` at the clock readings `ts`. */
  function Stamp<C>(c: C, ts: seq<int>): seq<Call<C>>
  {
    seq(|ts|, i requires 0 <= i < |ts| => Call(c, ts[i]))
  }

  /** The items pushed during the first `n` sleeps of a schedule, in push order. */
  function Pushed<T>(arrivals: seq<seq<T>>, n: int): seq<T>
  {
    if n <= 0 || arrivals == [] then [] else arrivals[0] + Pushed(arrivals[1..], n - 1)
  }

  /** Every batch of the schedule is empty: nothing is pushed during the wait. */
  predicate Idle<T>(arrivals: seq<seq<T>>)
  {
    forall k :: 0 <= k < |arrivals| ==> arrivals[k] == []
  }

  /** The first firing is more than `d` after `from`, and each later one more than `d` after the previous. */
  predicate Spaced(from: int, d: int, ts: seq<int>)
  {
    (|ts| > 0 ==> ts[0] > from + d) &&
    forall i :: 0 <= i < |ts| - 1 ==> ts[i + 1] > ts[i] + d
  }

  // ---------------------------------------------------------------------
  // Properties of the polling loop
  // ---------------------------------------------------------------------

  /**
   * A wait sleeps at most once per scheduled batch, the clock never runs
   * backwards, firings are only ever appended, the callback fires at most once
   * per idle iteration (the iteration that finds an item does not reach the
   * timer check), and a wait ends without an item only once the schedule is
   * exhausted and the queue is drained.
   */
  lemma {:induction false} WaitBounds<T>(items: seq<T>, interval: CallbackInterval, poll: nat, time: int, now: int,
                                         arrivals: seq<seq<T>>, fired: seq<int>, sleeps: nat)
    ensures var w := Wait(items, interval, poll, time, now, arrivals, fired, sleeps);
      && sleeps <= w.sleeps <= sleeps + |arrivals|
      && w.clock >= now
      && |fired| <= |w.fired| && w.fired[..|fired|] == fired
      && |w.fired| - |fired| <= w.sleeps - sleeps + (if w.item.None? then 1 else 0)
      && (w.item.None? ==> w.sleeps == sleeps + |arrivals| && w.rest == [])
    decreases |arrivals|
  {
    if items == [] && arrivals != [] {
      var due := Due(interval, time, now);
      var fired' := if due then fired + [now] else fired;
      WaitBounds(arrivals[0], interval, poll, if due then now else time, now + poll, arrivals[1..], fired', sleeps + 1);
      var w := Wait(arrivals[0], interval, poll, if due then now else time, now + poll, arrivals[1..], fired', sleeps + 1);
      assert w.fired[..|fired|] == w.fired[..|fired'|][..|fired|];
    }
  }

  /**
   * FIFO: a wait that returns an item returns the head of everything queued
   * (the initial contents, then the batches pushed during its sleeps, in push
   * order) and leaves the rest in place; a wait that returns nothing saw
   * nothing queued at all.
   */
  lemma {:induction false} WaitTakesHead<T>(items: seq<T>, interval: CallbackInterval, poll: nat, time: int, now: int,
                                            arrivals: seq<seq<T>>, fired: seq<int>, sleeps: nat)
    ensures var w := Wait(items, interval, poll, time, now, arrivals, fired, sleeps);
      && (w.item.Some? ==> [w.item.value] + w.rest == items + Pushed(arrivals, w.sleeps - sleeps))
      && (w.item.None? ==> items == [] && Idle(arrivals))
    decreases |arrivals|
  {
    if items == [] && arrivals != [] {
      var due := Due(interval, time, now);
      var time' := if due then now else time;
      var fired' := if due then fired + [now] else fired;
      WaitTakesHead(arrivals[0], interval, poll, time', now + poll, arrivals[1..], fired', sleeps + 1);
      WaitBounds(arrivals[0], interval, poll, time', now + poll, arrivals[1..], fired', sleeps + 1);
      var w := Wait(arrivals[0], interval, poll, time', now + poll, arrivals[1..], fired', sleeps + 1);
      if w.item.None? {
        assert forall k :: 1 <= k < |arrivals| ==> arrivals[k] == arrivals[1..][k - 1];
      }
    } else if items != [] {
      assert items == [items[0]] + items[1..];
    }
  }

  /** With the callback interval nil or false, the callback never fires, however long the wait. */
  lemma {:induction false} DisabledNeverFires<T>(items: seq<T>, poll: nat, time: int, now: int,
                                                 arrivals: seq<seq<T>>, fired: seq<int>, sleeps: nat)
    ensures Wait(items, Disabled, poll, time, now, arrivals, fired, sleeps).fired == fired
    decreases |arrivals|
  {
    if items == [] && arrivals != [] {
      DisabledNeverFires(arrivals[0], poll, time, now + poll, arrivals[1..], fired, sleeps + 1);
    }
  }

  /** The timer start: the last firing, or the start of the wait before any. */
  function TimerStart(from: int, fired: seq<int>): int
  {
    if fired == [] then from else fired[|fired| - 1]
  }

  /**
   * The callback fires only when strictly more than the interval has passed
   * since the timer start, and the timer restarts at each firing, so
   * successive firings are more than an interval apart.
   */
  lemma {:induction false} FiringsSpaced<T>(items: seq<T>, d: int, poll: nat, from: int, time: int, now: int,
                                            arrivals: seq<seq<T>>, fired: seq<int>, sleeps: nat)
    requires Spaced(from, d, fired) && time == TimerStart(from, fired)
    ensures Spaced(from, d, Wait(items, Every(d), poll, time, now, arrivals, fired, sleeps).fired)
    decreases |arrivals|
  {
    if items == [] {
      var due := Due(Every(d), time, now);
      var fired' := if due then fired + [now] else fired;
      assert Spaced(from, d, fired') && (if due then now else time) == TimerStart(from, fired');
      if arrivals != [] {
        FiringsSpaced(arrivals[0], d, poll, from, if due then now else time, now + poll, arrivals[1..], fired', sleeps + 1);
      }
    }
  }

  /**
   * The callback does fire while the queue stays empty: once the clock is
   * strictly past the timer start plus the interval, at least one firing has
   * happened.
   */
  lemma {:induction false} IdleWaitFires<T>(d: int, poll: nat, time: int, now: int,
                                            arrivals: seq<seq<T>>, fired: seq<int>, sleeps: nat)
    requires Idle(arrivals)
    requires Wait([], Every(d), poll, time, now, arrivals, fired, sleeps).clock > time + d
    ensures |Wait([], Every(d), poll, time, now, arrivals, fired, sleeps).fired| > |fired|
    decreases |arrivals|
  {
    if !Due(Every(d), time, now) && arrivals != [] {
      assert arrivals[0] == [];
      assert Idle(arrivals[1..]) by {
        forall k | 0 <= k < |arrivals| - 1 ensures arrivals[1..][k] == [] {
          assert arrivals[1..][k] == arrivals[k + 1];
        }
      }
      IdleWaitFires(d, poll, time, now + poll, arrivals[1..], fired, sleeps + 1);
    } else if Due(Every(d), time, now) && arrivals != [] {
      WaitBounds(arrivals[0], Every(d), poll, now, now + poll, arrivals[1..], fired + [now], sleeps + 1);
    }
  }

  /** The clock advances by exactly one poll interval per sleep. */
  lemma {:induction false} WaitClock<T>(items: seq<T>, interval: CallbackInterval, poll: nat, time: int, now: int,
                                        arrivals: seq<seq<T>>, fired: seq<int>, sleeps: nat)
    ensures var w := Wait(items, interval, poll, time, now, arrivals, fired, sleeps);
      w.clock == now + (w.sleeps - sleeps) * poll
    decreases |arrivals|
  {
    if items == [] && arrivals != [] {
      var due := Due(interval, time, now);
      var time' := if due then now else time;
      var fired' := if due then fired + [now] else fired;
      WaitClock(arrivals[0], interval, poll, time', now + poll, arrivals[1..], fired', sleeps + 1);
      var w := Wait(arrivals[0], interval, poll, time', now + poll, arrivals[1..], fired', sleeps + 1);
      assert (w.sleeps - sleeps) * poll == poll + (w.sleeps - (sleeps + 1)) * poll;
    }
  }

  /** Nothing is pushed by an idle schedule, over any number of sleeps. */
  lemma {:induction false} IdlePushesNothing<T>(arrivals: seq<seq<T>>, n: int)
    requires Idle(arrivals)
    ensures Pushed(arrivals, n) == []
    decreases |arrivals|
  {
    if n > 0 && arrivals != [] {
      assert arrivals[0] == [];
      assert Idle(arrivals[1..]) by {
        forall k | 0 <= k < |arrivals| - 1 ensures arrivals[1..][k] == [] {
          assert arrivals[1..][k] == arrivals[k + 1];
        }
      }
      IdlePushesNothing(arrivals[1..], n - 1);
    }
  }

  /**
   * A whole idle pop whose schedule spans more than the interval fires the
   * callback: no item appears, so the pop sleeps through the whole schedule
   * and the last check is strictly past the start plus the interval.
   */
  lemma IdlePopFires<T>(d: int, poll: nat, start: int, arrivals: seq<seq<T>>)
    requires Idle(arrivals) && |arrivals| * poll > d
    ensures |WaitFrom<T>([], Every(d), poll, start, arrivals).fired| > 0
  {
    var w := WaitFrom<T>([], Every(d), poll, start, arrivals);
    WaitTakesHead<T>([], Every(d), poll, start, start, arrivals, [], 0);
    WaitBounds<T>([], Every(d), poll, start, start, arrivals, [], 0);
    WaitClock<T>([], Every(d), poll, start, start, arrivals, [], 0);
    IdlePushesNothing(arrivals, w.sleeps);
    assert w.item.None?;
    IdleWaitFires<T>(d, poll, start, start, arrivals, [], 0);
  }

  /**
   * The timer re-arms: an idle wait never ends with the timer overdue. Each
   * time strictly more than the interval has passed since the last firing (or
   * the start), the next check fires and restarts the timer, so at the end
   * the clock is at most one interval past the timer start.
   */
  lemma {:induction false} IdleEndsArmed<T>(d: int, poll: nat, from: int, time: int, now: int,
                                            arrivals: seq<seq<T>>, fired: seq<int>, sleeps: nat)
    requires d >= 0 && time == TimerStart(from, fired) && Idle(arrivals)
    ensures var w := Wait([], Every(d), poll, time, now, arrivals, fired, sleeps);
      w.clock <= TimerStart(from, w.fired) + d
    decreases |arrivals|
  {
    var due := Due(Every(d), time, now);
    var fired' := if due then fired + [now] else fired;
    assert (if due then now else time) == TimerStart(from, fired');
    if arrivals != [] {
      assert arrivals[0] == [];
      assert Idle(arrivals[1..]) by {
        forall k | 0 <= k < |arrivals| - 1 ensures arrivals[1..][k] == [] {
          assert arrivals[1..][k] == arrivals[k + 1];
        }
      }
      IdleEndsArmed(d, poll, from, if due then now else time, now + poll, arrivals[1..], fired', sleeps + 1);
    }
  }

  /**
   * A whole idle pop: firings are more than an interval apart (PopFiringsSpaced)
   * and the wait never ends more than an interval after the last firing or the start.
   */
  lemma IdlePopEndsArmed<T>(d: int, poll: nat, start: int, arrivals: seq<seq<T>>)
    requires d >= 0 && Idle(arrivals)
    ensures var w := WaitFrom<T>([], Every(d), poll, start, arrivals);
      w.clock <= TimerStart(start, w.fired) + d
  {
    IdleEndsArmed<T>(d, poll, start, start, start, arrivals, [], 0);
  }

  /**
   * An interval of 0 does not disable the callback: while the queue stays
   * empty and the clock advances, every timer check after the first fires.
   */
  lemma {:induction false} ZeroIntervalFiresEveryTick<T>(poll: nat, time: int, now: int,
                                                         arrivals: seq<seq<T>>, fired: seq<int>, sleeps: nat)
    requires poll > 0 && time <= now && Idle(arrivals)
    ensures |Wait([], Every(0), poll, time, now, arrivals, fired, sleeps).fired|
      == |fired| + |arrivals| + (if now > time then 1 else 0)
    decreases |arrivals|
  {
    if arrivals != [] {
      var due := Due(Every(0), time, now);
      assert arrivals[0] == [];
      assert Idle(arrivals[1..]) by {
        forall k | 0 <= k < |arrivals| - 1 ensures arrivals[1..][k] == [] {
          assert arrivals[1..][k] == arrivals[k + 1];
        }
      }
      ZeroIntervalFiresEveryTick(poll, if due then now else time, now + poll, arrivals[1..],
                                 if due then fired + [now] else fired, sleeps + 1);
    }
  }

  /** A whole pop with interval 0: one firing per sleep of an idle wait. */
  lemma ZeroIntervalPop<T>(poll: nat, start: int, arrivals: seq<seq<T>>)
    requires poll > 0 && Idle(arrivals)
    ensures |WaitFrom([], Every(0), poll, start, arrivals).fired| == |arrivals|
  {
    ZeroIntervalFiresEveryTick(poll, start, start, arrivals, [], 0);
  }

  /** A whole pop: successive firings are more than the interval apart, the first more than it after the start. */
  lemma PopFiringsSpaced<T>(items: seq<T>, d: int, poll: nat, start: int, arrivals: seq<seq<T>>)
    ensures Spaced(start, d, WaitFrom(items, Every(d), poll, start, arrivals).fired)
  {
    FiringsSpaced(items, d, poll, start, start, start, arrivals, [], 0);
  }

  /**
   * At exactly the interval the callback does not fire: polling once per
   * interval, the check one interval after the start stays silent and the
   * next one fires.
   */
  lemma ExactIntervalDoesNotFire<T>(d: int, start: int)
    requires d > 0
    ensures WaitFrom<T>([], Every(d), d, start, [[]]).fired == []
    ensures WaitFrom<T>([], Every(d), d, start, [[], []]).fired == [start + d + d]
  {
  }

  /** A firing appends one call of the current callback to the trace. */
  lemma StampSnoc<C>(c: C, ts: seq<int>, t: int)
    ensures Stamp(c, ts + [t]) == Stamp(c, ts) + [Call(c, t)]
  {
  }

  class QueueWithIntervalCallback<T, C> {
    var items: seq<T>
    var callback: C
    const callbackInterval: CallbackInterval
    const pollInterval: nat
    ghost var calls: seq<Call<C>>

    constructor (callback: C, callbackInterval: CallbackInterval, pollInterval: nat)
      ensures this.callback == callback && this.callbackInterval == callbackInterval
      ensures this.pollInterval == pollInterval
      ensures items == [] && calls == []
    {
      this.callback := callback;
      this.callbackInterval := callbackInterval;
      this.pollInterval := pollInterval;
      items := [];
      calls := [];
    }

    /** The writer of the `callback` accessor. */
    method SetCallback(c: C)
      modifies this
      ensures callback == c && items == old(items) && calls == old(calls)
    {
      callback := c;
    }

    /** ::Queue#push: append at the tail. */
    method Push(x: T)
      modifies this
      ensures items == old(items) + [x]
      ensures callback == old(callback) && calls == old(calls)
    {
      items := items + [x];
    }

    /** ::Queue#pop(true): take the head without waiting; on an empty queue, fail. */
    method PopNonBlock() returns (r: Option<T>)
      modifies this
      ensures old(items) == [] ==> r == None && items == old(items)
      ensures old(items) != [] ==> r == Some(old(items)[0]) && items == old(items)[1..]
      ensures callback == old(callback) && calls == old(calls)
    {
      if items == [] {
        r := None;
      } else {
        r := Some(items[0]);
        items := items[1..];
      }
    }

    /** The polling loop, starting at clock reading `start`. */
    method PopWithIntervalCallback(arrivals: seq<seq<T>>, start: int) returns (r: Option<T>)
      modifies this
      ensures var w := WaitFrom(old(items), callbackInterval, pollInterval, start, arrivals);
        r == w.item && items == w.rest && calls == old(calls) + Stamp(callback, w.fired)
      ensures old(items) != [] ==> r == Some(old(items)[0]) && items == old(items)[1..] && calls == old(calls)
      ensures callback == old(callback)
    {
      ghost var w0 := WaitFrom(items, callbackInterval, pollInterval, start, arrivals);
      ghost var calls0 := calls;
      var time, now, k := start, start, 0;
      ghost var fired: seq<int> := [];
      while items == []
        invariant 0 <= k <= |arrivals|
        invariant w0 == Wait(items, callbackInterval, pollInterval, time, now, arrivals[k..], fired, k)
        invariant calls == calls0 + Stamp(callback, fired)
        invariant callback == old(callback)
        invariant old(items) != [] ==> k == 0 && items == old(items) && fired == []
        decreases |arrivals| - k
      {
        if Due(callbackInterval, time, now) {
          StampSnoc(callback, fired, now);
          calls := calls + [Call(callback, now)];
          fired := fired + [now];
          time := now;
        }
        if k == |arrivals| {
          r := None;
          return;
        }
        now := now + pollInterval;  // sleep
        items := items + arrivals[k];
        assert arrivals[k..][1..] == arrivals[k + 1..];
        k := k + 1;
      }
      r := PopNonBlock();
    }

    /** pop(non_block_without_callback = false). */
    method Pop(nonBlockWithoutCallback: bool, arrivals: seq<seq<T>>, start: int) returns (r: PopResult<T>)
      modifies this
      ensures nonBlockWithoutCallback ==>
        calls == old(calls) &&
        (old(items) == [] ==> r == QueueEmpty && items == old(items)) &&
        (old(items) != [] ==> r == Popped(old(items)[0]) && items == old(items)[1..])
      ensures !nonBlockWithoutCallback ==>
        var w := WaitFrom(old(items), callbackInterval, pollInterval, start, arrivals);
        r == (if w.item.Some? then Popped(w.item.value) else StillWaiting) &&
        items == w.rest && calls == old(calls) + Stamp(callback, w.fired)
      ensures callback == old(callback)
    {
      var x: Option<T>;
      if nonBlockWithoutCallback {
        x := PopNonBlock();
        r := if x.Some? then Popped(x.value) else QueueEmpty;
      } else {
        x := PopWithIntervalCallback(arrivals, start);
        r := if x.Some? then Popped(x.value) else StillWaiting;
      }
    }
  }

  /**
   * Items come out in push order: after pushing x and then y, two waiting
   * pops return x and then y, and neither invokes the callback.
   */
  method PushPopInOrder<T>(x: T, y: T, start: int) returns (first: PopResult<T>, second: PopResult<T>, ghost calls: nat)
    ensures first == Popped(x) && second == Popped(y) && calls == 0
  {
    var q := new QueueWithIntervalCallback<T, int>(0, Every(0), 1);
    q.Push(x);
    q.Push(y);
    first := q.Pop(false, [], start);
    second := q.Pop(false, [], start);
    calls := |q.calls|;
  }
}
