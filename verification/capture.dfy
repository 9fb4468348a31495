/**
 * The capture loop of `ListenerThread.run` (`py_umik`): the reconnection watchdog and the
 * non-blocking enqueue. The stream, the clock and the queue's fullness are inputs, given
 * as a sequence of events; the state is the retry counter, whether a stream is open,
 * whether the loop has ended and why, and what was put on the queue.
 */
module Capture {
  import Blocks

  const ReconnectDelaySeconds: int := 5
  const ReconnectMaxRetries: nat := 10

  /** What `stream.read` returns: one channel, or a frames-by-channels block. */
  datatype Samples = Mono(samples: seq<real>) | Frames(rows: seq<seq<real>>)

  /** `flatten()` for a block of more than one dimension, row by row. */
  function Flatten(x: Samples): (r: seq<real>)
    ensures x.Mono? ==> r == x.samples
  {
    match x
    case Mono(s) => s
    case Frames(rows) => Blocks.Concat(rows)
  }

  datatype Event =
    | OpenOk                                              // `sd.InputStream(...)` opened
    | HardwareError                                       // `PortAudioError` or `OSError`, opening or reading
    | OtherError                                          // any other exception
    | Read(chunk: Samples, timestamp: string, queueFull: bool)
    | StopRequested                                       // the stop event is seen set

  datatype Reason = StillRunning | StopSignal | RetriesExhausted | Fatal

  datatype State = State(
    maxRetries: nat,
    retries: nat,
    streaming: bool,
    reason: Reason,
    openAttempts: nat,
    queued: seq<(seq<real>, string)>,
    dropWarnings: nat)

  predicate Stopped(s: State) {
    !s.reason.StillRunning?
  }

  function Initial(maxRetries: nat): (s: State)
    ensures !Stopped(s) && s.retries == 0 && !s.streaming && s.queued == []
  {
    State(maxRetries, 0, false, StillRunning, 0, [], 0)
  }

  /**
   * One event. Once the loop has ended nothing changes. A read outside an open stream
   * cannot happen and changes nothing.
   */
  function Step(s: State, e: Event): (r: State)
    ensures r.maxRetries == s.maxRetries
    ensures Stopped(s) ==> r == s
    ensures !Stopped(s) && e.OpenOk? ==> r.retries == 0 && r.streaming && !Stopped(r)
    ensures !Stopped(s) && e.HardwareError? ==>
              r.retries == s.retries + 1 && !r.streaming &&
              (Stopped(r) <==> s.retries + 1 >= s.maxRetries) &&
              (Stopped(r) ==> r.reason == RetriesExhausted)
    ensures !Stopped(s) && e.OtherError? ==> r.reason == Fatal
    ensures !Stopped(s) && e.StopRequested? ==> r.reason == StopSignal
    ensures !Stopped(s) && e.Read? && s.streaming ==>
              !Stopped(r) && r.streaming && r.retries == s.retries &&
              (e.queueFull ==> r.queued == s.queued && r.dropWarnings == s.dropWarnings + 1) &&
              (!e.queueFull ==> r.queued == s.queued + [(Flatten(e.chunk), e.timestamp)])
    ensures r.openAttempts == s.openAttempts + (if !Stopped(s) && !s.streaming && (e.OpenOk? || e.HardwareError?) then 1 else 0)
  {
    if Stopped(s) then s
    else
      var attempts := if !s.streaming && (e.OpenOk? || e.HardwareError?) then s.openAttempts + 1 else s.openAttempts;
      match e
      case OpenOk => s.(retries := 0, streaming := true, openAttempts := attempts)
      case HardwareError =>
        var n := s.retries + 1;
        s.(retries := n, streaming := false, openAttempts := attempts,
           reason := if n >= s.maxRetries then RetriesExhausted else StillRunning)
      case OtherError => s.(streaming := false, reason := Fatal)
      case StopRequested => s.(streaming := false, reason := StopSignal)
      case Read(chunk, t, full) =>
        if !s.streaming then s
        else if full then s.(dropWarnings := s.dropWarnings + 1)
        else s.(queued := s.queued + [(Flatten(chunk), t)])
  }

  /** The events in order, as a fold from the left. */
  function Run(s: State, events: seq<Event>): (r: State)
    ensures r.maxRetries == s.maxRetries
    decreases |events|
  {
    if events == [] then s else Step(Run(s, events[..|events| - 1]), events[|events| - 1])
  }

  /** Hardware errors since the last successful open. */
  function ErrorsSinceOpen(events: seq<Event>): nat
    decreases |events|
  {
    if events == [] then 0
    else
      var before := ErrorsSinceOpen(events[..|events| - 1]);
      match events[|events| - 1]
      case OpenOk => 0
      case HardwareError => before + 1
      case _ => before
  }

  /**
   * While the loop runs, the retry counter is the number of hardware errors since the last
   * successful open, and it is below the limit; an open stream means no error since.
   */
  lemma {:induction false} RetriesCountErrorsSinceOpen(maxRetries: nat, events: seq<Event>)
    requires !Stopped(Run(Initial(maxRetries), events))
    ensures Run(Initial(maxRetries), events).retries == ErrorsSinceOpen(events)
    ensures Run(Initial(maxRetries), events).retries == 0 || Run(Initial(maxRetries), events).retries < maxRetries
    ensures Run(Initial(maxRetries), events).streaming ==> Run(Initial(maxRetries), events).retries == 0
    decreases |events|
  {
    if events != [] {
      var init := events[..|events| - 1];
      assert !Stopped(Run(Initial(maxRetries), init));
      RetriesCountErrorsSinceOpen(maxRetries, init);
    }
  }

  /**
   * The watchdog gives up only at a hardware error that brings the errors since the last
   * successful open to the limit: `max_retries` consecutive failures, no open in between.
   */
  lemma FatalStopNeedsConsecutiveErrors(maxRetries: nat, events: seq<Event>, e: Event)
    requires !Stopped(Run(Initial(maxRetries), events))
    requires Run(Initial(maxRetries), events + [e]).reason == RetriesExhausted
    ensures e.HardwareError?
    ensures ErrorsSinceOpen(events + [e]) == if maxRetries == 0 then 1 else maxRetries
  {
    RetriesCountErrorsSinceOpen(maxRetries, events);
    assert (events + [e])[..|events + [e]| - 1] == events;
  }

  /** One hardware error followed by a successful open is two attempts at opening the stream. */
  lemma OneErrorThenOpen(x: seq<real>, t: string)
    ensures var r := Run(Initial(2), [HardwareError, OpenOk, Read(Mono(x), t, false), StopRequested]);
            r.openAttempts == 2 && r.reason == StopSignal && r.queued == [(x, t)] && r.retries == 0
  {
    var es: seq<Event> := [HardwareError, OpenOk, Read(Mono(x), t, false), StopRequested];
    var s0 := Initial(2);
    assert es[..3][..2][..1][..0] == [];
    assert Run(s0, es[..1]) == Step(s0, HardwareError);
    var s1 := Step(s0, HardwareError);
    assert s1.openAttempts == 1 && s1.retries == 1 && !Stopped(s1);
    assert Run(s0, es[..2]) == Step(s1, OpenOk) by {
      assert es[..2][..1] == es[..1];
    }
    var s2 := Step(s1, OpenOk);
    assert Run(s0, es[..3]) == Step(s2, Read(Mono(x), t, false)) by {
      assert es[..3][..2] == es[..2];
    }
  }
}
