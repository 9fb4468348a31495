/**
 * `AudioPipeline`: processors applied in insertion order, each to the previous one's
 * output, then every sink in insertion order handed the final chunk and the timestamp.
 * Nothing is caught: a stage that raises ends the run. Timestamps are of any type `T`.
 */
module Pipeline {
  import opened Wrappers
  import FirFilter

  /**
   * A processor: an arbitrary transformer (`None` when it raises), or the calibrator
   * adapter, which is the calibration filter's `apply` with its carried state.
   */
  datatype Processor =
    | Transformer(transform: seq<real> -> Option<seq<real>>)
    | CalibratorStage(filter: FirFilter.FilterState)

  predicate ValidProcessor(p: Processor) {
    p.CalibratorStage? ==> FirFilter.Valid(p.filter)
  }

  predicate AllValid(ps: seq<Processor>) {
    forall i :: 0 <= i < |ps| ==> ValidProcessor(ps[i])
  }

  /** `process_audio`: the processor as it is afterwards, and its output. */
  function Process(p: Processor, x: seq<real>): (r: (Processor, Option<seq<real>>))
    requires ValidProcessor(p)
    ensures ValidProcessor(r.0) && r.0.Transformer? == p.Transformer?
    ensures p.CalibratorStage? ==> r.1.Some? && |r.1.value| == |x| && r.0.filter.taps == p.filter.taps
  {
    match p
    case Transformer(f) => (p, f(x))
    case CalibratorStage(st) =>
      var (next, y) := FirFilter.Apply(st, x);
      (CalibratorStage(next), Some(y))
  }

  /** `handle_audio` of a sink: `true` when it raises. */
  type Sink<!T> = (seq<real>, T) -> bool

  datatype Pipeline<!T> = Pipeline(processors: seq<Processor>, sinks: seq<Sink<T>>)

  function NewPipeline<T>(): (p: Pipeline<T>)
    ensures p.processors == [] && p.sinks == []
  {
    Pipeline([], [])
  }

  /** `add_processor`: appends to the processors; the sinks are untouched. */
  function AddProcessor<T>(p: Pipeline<T>, proc: Processor): (r: Pipeline<T>)
    ensures r.processors == p.processors + [proc] && r.sinks == p.sinks
  {
    p.(processors := p.processors + [proc])
  }

  /** `add_sink`: appends to the sinks; the processors are untouched. */
  function AddSink<T>(p: Pipeline<T>, sink: Sink<T>): (r: Pipeline<T>)
    ensures r.sinks == p.sinks + [sink] && r.processors == p.processors
  {
    p.(sinks := p.sinks + [sink])
  }

  // ---------------------------------------------------------------- transform

  /**
   * The processor loop of `execute`: the input each processor that ran was given, every
   * processor afterwards, and the final chunk (`None` when a processor raised).
   */
  datatype Transformed = Transformed(inputs: seq<seq<real>>, processors: seq<Processor>, output: Option<seq<real>>)

  function RunProcessors(ps: seq<Processor>, x: seq<real>): (r: Transformed)
    requires AllValid(ps)
    ensures |r.processors| == |ps| && AllValid(r.processors)
    ensures |r.inputs| <= |ps|
    ensures ps == [] ==> r.output == Some(x) && r.inputs == []
    ensures ps != [] ==> |r.inputs| >= 1 && r.inputs[0] == x
    decreases |ps|
  {
    if ps == [] then Transformed([], [], Some(x))
    else
      var (p, y) := Process(ps[0], x);
      match y
      case None => Transformed([x], [p] + ps[1..], None)
      case Some(v) =>
        var rest := RunProcessors(ps[1..], v);
        var r := Transformed([x] + rest.inputs, [p] + rest.processors, rest.output);
        assert forall i :: 1 <= i < |ps| ==> r.processors[i] == rest.processors[i - 1];
        r
  }

  /** What `RunProcessors` does with the processor `ps[0]` and the input `x`. */
  lemma RunStep(ps: seq<Processor>, x: seq<real>)
    requires AllValid(ps) && ps != []
    ensures var pr := Process(ps[0], x);
            var r := RunProcessors(ps, x);
            (pr.1.None? ==> r == Transformed([x], [pr.0] + ps[1..], None)) &&
            (pr.1.Some? ==>
               var rest := RunProcessors(ps[1..], pr.1.value);
               r == Transformed([x] + rest.inputs, [pr.0] + rest.processors, rest.output))
  {
  }

  /** Processor `i` was given `r.inputs[i]`, handed `r.inputs[i + 1]` on and was left as `r.processors[i]`. */
  ghost predicate Passed(ps: seq<Processor>, r: Transformed, i: nat)
    requires AllValid(ps) && i + 1 < |r.inputs| && i < |ps| && i < |r.processors|
  {
    Process(ps[i], r.inputs[i]) == (r.processors[i], Some(r.inputs[i + 1]))
  }

  /** The last processor that ran, `k`, produced the result, or raised; either way it was left as `r.processors[k]`. */
  ghost predicate Ended(ps: seq<Processor>, r: Transformed, k: nat)
    requires AllValid(ps) && k < |r.inputs| && k < |ps| && k < |r.processors|
  {
    Process(ps[k], r.inputs[k]).0 == r.processors[k] &&
    (r.output.Some? ==> k == |ps| - 1 && Process(ps[k], r.inputs[k]).1 == r.output) &&
    (r.output.None? ==> Process(ps[k], r.inputs[k]).1.None?)
  }

  /**
   * The processor loop of `execute` as a chain: each processor that ran was given the
   * previous one's output (the first, the input); a processor that ran is left as it
   * left itself and the others are untouched; either all ran and the last one's output
   * is the result, or the run stopped at the first processor that raised.
   */
  lemma {:induction false} ProcessorsChain(ps: seq<Processor>, x: seq<real>)
    requires AllValid(ps)
    ensures var r := RunProcessors(ps, x);
            forall i :: 0 <= i < |r.inputs| - 1 ==> Passed(ps, r, i)
    ensures var r := RunProcessors(ps, x);
            ps != [] ==> Ended(ps, r, |r.inputs| - 1)
    ensures var r := RunProcessors(ps, x);
            r.output.None? ==> ps != []
    ensures var r := RunProcessors(ps, x);
            forall i :: |r.inputs| <= i < |ps| ==> r.processors[i] == ps[i]
    decreases |ps|
  {
    if ps != [] {
      RunStep(ps, x);
      var pr := Process(ps[0], x);
      if pr.1.Some? {
        var tl, v := ps[1..], pr.1.value;
        ProcessorsChain(tl, v);
        ChainCons(ps, x, RunProcessors(tl, v), RunProcessors(ps, x));
      }
    }
  }

  /** The chain facts for `ps[1..]` from the output of `ps[0]` give them for `ps` from `x`. */
  lemma ChainCons(ps: seq<Processor>, x: seq<real>, rest: Transformed, r: Transformed)
    requires AllValid(ps) && ps != [] && Process(ps[0], x).1.Some?
    requires |rest.inputs| <= |ps| - 1 && |rest.processors| == |ps| - 1
    requires ps[1..] != [] ==> |rest.inputs| >= 1 && rest.inputs[0] == Process(ps[0], x).1.value
    requires ps[1..] == [] ==> rest.output == Some(Process(ps[0], x).1.value) && rest.inputs == []
    requires r == Transformed([x] + rest.inputs, [Process(ps[0], x).0] + rest.processors, rest.output)
    requires forall i :: 0 <= i < |rest.inputs| - 1 ==> Passed(ps[1..], rest, i)
    requires ps[1..] != [] ==> Ended(ps[1..], rest, |rest.inputs| - 1)
    requires rest.output.None? ==> ps[1..] != []
    requires forall i :: |rest.inputs| <= i < |ps| - 1 ==> rest.processors[i] == ps[1..][i]
    ensures forall i :: 0 <= i < |r.inputs| - 1 ==> Passed(ps, r, i)
    ensures Ended(ps, r, |r.inputs| - 1)
    ensures forall i :: |r.inputs| <= i < |ps| ==> r.processors[i] == ps[i]
  {
    if ps[1..] == [] {
      assert r.inputs == [x];
    } else {
      forall i | 1 <= i < |r.inputs| - 1
        ensures Passed(ps, r, i)
      {
        assert ps[i] == ps[1..][i - 1] && r.inputs[i] == rest.inputs[i - 1];
        assert r.inputs[i + 1] == rest.inputs[i] && r.processors[i] == rest.processors[i - 1];
        assert Passed(ps[1..], rest, i - 1);
      }
      var k := |r.inputs| - 1;
      assert ps[k] == ps[1..][k - 1] && r.inputs[k] == rest.inputs[k - 1];
      assert r.processors[k] == rest.processors[k - 1];
      assert Ended(ps[1..], rest, k - 1);
      assert forall i :: |r.inputs| <= i < |ps| ==> ps[i] == ps[1..][i - 1] && r.processors[i] == rest.processors[i - 1];
    }
  }

  // ---------------------------------------------------------------- fan-out

  /** One `handle_audio` call: which sink, and what it was given. */
  datatype Delivery<T> = Delivery(sink: nat, chunk: seq<real>, timestamp: T)

  datatype FanOut<T> = FanOut(deliveries: seq<Delivery<T>>, raised: bool)

  /** The sink loop of `execute` from sink `k` on. */
  function DeliverFrom<T>(sinks: seq<Sink<T>>, k: nat, y: seq<real>, t: T): (r: FanOut<T>)
    requires k <= |sinks|
    ensures |r.deliveries| <= |sinks| - k
    ensures forall i :: 0 <= i < |r.deliveries| ==> r.deliveries[i] == Delivery(k + i, y, t)
    ensures forall j :: k <= j < k + |r.deliveries| - 1 ==> !sinks[j](y, t)
    ensures !r.raised ==> |r.deliveries| == |sinks| - k && forall i :: k <= i < |sinks| ==> !sinks[i](y, t)
    ensures r.raised ==> |r.deliveries| >= 1 && sinks[k + |r.deliveries| - 1](y, t)
    decreases |sinks| - k
  {
    if k == |sinks| then FanOut([], false)
    else if sinks[k](y, t) then FanOut([Delivery(k, y, t)], true)
    else
      var rest := DeliverFrom(sinks, k + 1, y, t);
      FanOut([Delivery(k, y, t)] + rest.deliveries, rest.raised)
  }

  // ---------------------------------------------------------------- execute

  /** The pipeline afterwards, the processors' inputs, the sink calls, and whether `execute` raised. */
  datatype Execution<!T> = Execution(
    pipeline: Pipeline<T>,
    processorInputs: seq<seq<real>>,
    deliveries: seq<Delivery<T>>,
    raised: bool)

  /** `execute(audio_chunk, timestamp)`. */
  function Execute<T>(p: Pipeline<T>, chunk: seq<real>, t: T): (r: Execution<T>)
    requires AllValid(p.processors)
    ensures r.pipeline.sinks == p.sinks && AllValid(r.pipeline.processors)
    ensures |r.pipeline.processors| == |p.processors|
    ensures r.processorInputs == RunProcessors(p.processors, chunk).inputs
    // a raising processor ends the run before any sink
    ensures RunProcessors(p.processors, chunk).output.None? ==> r.raised && r.deliveries == []
    // otherwise the sinks are called in order with the final chunk and the same timestamp
    ensures RunProcessors(p.processors, chunk).output.Some? ==>
              forall i :: 0 <= i < |r.deliveries| ==>
                r.deliveries[i] == Delivery(i, RunProcessors(p.processors, chunk).output.value, t)
    ensures |r.deliveries| <= |p.sinks|
    ensures !r.raised ==> |r.deliveries| == |p.sinks|
    ensures r.raised && r.deliveries != [] ==> p.sinks[|r.deliveries| - 1](r.deliveries[0].chunk, t)
    // with no processors the sinks get the input unchanged
    ensures p.processors == [] ==> forall i :: 0 <= i < |r.deliveries| ==> r.deliveries[i].chunk == chunk
  {
    var tr := RunProcessors(p.processors, chunk);
    match tr.output
    case None => Execution(p.(processors := tr.processors), tr.inputs, [], true)
    case Some(y) =>
      var fan := DeliverFrom(p.sinks, 0, y, t);
      Execution(p.(processors := tr.processors), tr.inputs, fan.deliveries, fan.raised)
  }

  /**
   * When no stage raises, every sink is called exactly once, in insertion order, with
   * the final chunk and the unchanged timestamp.
   */
  lemma EverySinkOnce<T>(p: Pipeline<T>, chunk: seq<real>, t: T)
    requires AllValid(p.processors)
    requires RunProcessors(p.processors, chunk).output.Some?
    requires forall i :: 0 <= i < |p.sinks| ==> !p.sinks[i](RunProcessors(p.processors, chunk).output.value, t)
    ensures var r := Execute(p, chunk, t);
            !r.raised && |r.deliveries| == |p.sinks| &&
            forall i :: 0 <= i < |p.sinks| ==>
              r.deliveries[i] == Delivery(i, RunProcessors(p.processors, chunk).output.value, t)
  {
    var y := RunProcessors(p.processors, chunk).output.value;
    var fan := DeliverFrom(p.sinks, 0, y, t);
    assert !fan.raised by {
      if fan.raised {
        assert false;
      }
    }
  }

  /**
   * A pipeline whose only processor is the calibrator hands every sink the filtered
   * chunk and keeps the filter state for the next chunk.
   */
  lemma CalibratedPipeline<T>(st: FirFilter.FilterState, sinks: seq<Sink<T>>, chunk: seq<real>, t: T)
    requires FirFilter.Valid(st)
    ensures var r := Execute(Pipeline([CalibratorStage(st)], sinks), chunk, t);
            r.pipeline.processors == [CalibratorStage(FirFilter.Apply(st, chunk).0)] &&
            forall i :: 0 <= i < |r.deliveries| ==> r.deliveries[i] == Delivery(i, FirFilter.Apply(st, chunk).1, t)
  {
    var ps := [CalibratorStage(st)];
    assert AllValid(ps);
    assert ps[1..] == [];
  }
}
