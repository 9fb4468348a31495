/**
 * `AudioStreamsConsumerThread.run`: the loop that takes `(chunk, timestamp)` items from
 * the shared queue and calls every callback on each. A callback that raises is logged and
 * the others still run; a queue timeout continues the loop; any other error sets the stop
 * event. The stop flag is read before every dequeue.
 *
 * What each `get` returns, and the moments another thread sets the stop event, are given
 * as a sequence of events; the thread itself is not modelled.
 */
module Consumer {
  import opened Wrappers

  /** A callback: `true` when calling it raises. */
  type Callback<!T> = (seq<real>, T) -> bool

  /** `callbacks if callbacks else []`; the warning is logged when the list is empty. */
  function CallbacksOrEmpty<T>(callbacks: Option<seq<Callback<T>>>): (r: seq<Callback<T>>)
    ensures callbacks.None? ==> r == []
    ensures callbacks.Some? ==> r == callbacks.value
  {
    match callbacks
    case None => []
    case Some(cs) => cs
  }

  /** What happens at one turn of the loop. */
  datatype Event<T> =
    | Item(chunk: seq<real>, timestamp: T)  // `get` returned an item
    | Timeout                               // `get` raised `queue.Empty`
    | QueueError                            // `get` (or unpacking) raised anything else
    | StopRequested                         // another thread set the stop event

  /** One callback invocation, and whether it raised. */
  datatype Call<T> = Call(callback: nat, chunk: seq<real>, timestamp: T, raised: bool)

  /** The inner loop: every callback from `k` on, each inside its own `try`. */
  function DispatchFrom<T>(callbacks: seq<Callback<T>>, k: nat, chunk: seq<real>, t: T): (r: seq<Call<T>>)
    requires k <= |callbacks|
    ensures |r| == |callbacks| - k
    ensures forall i :: 0 <= i < |r| ==>
              r[i] == Call(k + i, chunk, t, callbacks[k + i](chunk, t))
    decreases |callbacks| - k
  {
    if k == |callbacks| then []
    else [Call(k, chunk, t, callbacks[k](chunk, t))] + DispatchFrom(callbacks, k + 1, chunk, t)
  }

  function Dispatch<T>(callbacks: seq<Callback<T>>, chunk: seq<real>, t: T): (r: seq<Call<T>>)
    ensures |r| == |callbacks|
    ensures forall i :: 0 <= i < |r| ==> r[i] == Call(i, chunk, t, callbacks[i](chunk, t))
  {
    DispatchFrom(callbacks, 0, chunk, t)
  }

  /** What a run did: the callback calls in order, how many events it consumed, and the stop flag. */
  datatype Run<T> = Run(calls: seq<Call<T>>, consumed: nat, stopped: bool)

  /** `run` over the events, stop flag initially clear. */
  function RunLoop<T>(callbacks: seq<Callback<T>>, events: seq<Event<T>>): (r: Run<T>)
    ensures r.consumed <= |events|
    ensures !r.stopped ==> r.consumed == |events|
    decreases |events|
  {
    if events == [] then Run([], 0, false)
    else
      match events[0]
      case Item(chunk, t) =>
        var rest := RunLoop(callbacks, events[1..]);
        Run(Dispatch(callbacks, chunk, t) + rest.calls, rest.consumed + 1, rest.stopped)
      case Timeout =>
        var rest := RunLoop(callbacks, events[1..]);
        Run(rest.calls, rest.consumed + 1, rest.stopped)
      case QueueError => Run([], 1, true)
      case StopRequested => Run([], 1, true)
  }

  // ---------------------------------------------------------------- reference

  predicate IsStop<T>(e: Event<T>) {
    e.QueueError? || e.StopRequested?
  }

  /** The position of the first event that sets the stop flag, or `|events|`. */
  function FirstStop<T>(events: seq<Event<T>>): (n: nat)
    ensures n <= |events|
    ensures n < |events| ==> IsStop(events[n])
    ensures forall i :: 0 <= i < n ==> !IsStop(events[i])
    decreases |events|
  {
    if events == [] then 0
    else if IsStop(events[0]) then 0
    else 1 + FirstStop(events[1..])
  }

  /** Every item in the events, each dispatched to all callbacks, in order. */
  function DispatchAll<T>(callbacks: seq<Callback<T>>, events: seq<Event<T>>): seq<Call<T>>
    decreases |events|
  {
    if events == [] then []
    else if events[0].Item? then Dispatch(callbacks, events[0].chunk, events[0].timestamp) + DispatchAll(callbacks, events[1..])
    else DispatchAll(callbacks, events[1..])
  }

  /**
   * A run dispatches exactly the items before the first stop to every callback, in order,
   * whatever the callbacks raise; it consumes the stop event and nothing after it; and it
   * stops if and only if such an event occurs.
   */
  lemma {:induction false} RunDispatchesItemsBeforeStop<T>(callbacks: seq<Callback<T>>, events: seq<Event<T>>)
    ensures var r := RunLoop(callbacks, events);
            var n := FirstStop(events);
            r.calls == DispatchAll(callbacks, events[..n]) &&
            r.stopped == (n < |events|) &&
            r.consumed == (if n < |events| then n + 1 else n)
    decreases |events|
  {
    if events != [] {
      RunDispatchesItemsBeforeStop(callbacks, events[1..]);
      if !IsStop(events[0]) {
        assert events[..FirstStop(events)][1..] == events[1..][..FirstStop(events[1..])];
      }
    }
  }

  /** Items that follow a stop event are never handed to a callback: the run ends there. */
  lemma {:induction false} NothingAfterStop<T>(callbacks: seq<Callback<T>>, before: seq<Event<T>>, stop: Event<T>, after: seq<Event<T>>)
    requires IsStop(stop)
    ensures RunLoop(callbacks, before + [stop] + after) == RunLoop(callbacks, before + [stop])
    decreases |before|
  {
    if before == [] {
      assert ([] + [stop] + after)[0] == stop;
      assert ([] + [stop])[0] == stop;
    } else {
      NothingAfterStop(callbacks, before[1..], stop, after);
      assert (before + [stop] + after)[1..] == before[1..] + [stop] + after;
      assert (before + [stop])[1..] == before[1..] + [stop];
    }
  }
}
