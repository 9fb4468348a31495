/**
 * The metrics sinks of the real-time meters: the windowed sink that gathers chunks until
 * an interval's worth of samples is buffered (`py_umik` and `samples` variants), its
 * immediate per-chunk mode, and the per-chunk decibel meter sink.
 *
 * Every sink catches what the metric computation raises and logs it; a computation that
 * raises is written `None` here. The clock reading `datetime.now()` is an input.
 */
module MetricsSink {
  import opened Wrappers
  import Numeric
  import Blocks
  import AudioMetrics
  import DatetimeStamp

  type Time = DatetimeStamp.DateTime

  /** `np.sqrt`, `np.log10`, librosa's onset envelope and the pyloudnorm meter. */
  datatype Dsp = Dsp(
    sqrt: real -> real,
    log10: real -> real,
    onsetEnvelope: seq<real> -> seq<real>,
    meter: seq<real> -> AudioMetrics.Loudness)

  /** The configuration a sink reads for dBSPL. */
  datatype Calibration = Calibration(hasCalibrator: bool, sensitivityDbfs: Option<real>, referenceDbspl: real)

  /**
   * The keyword arguments given to `show_metrics`. `intervalS` is absent for the decibel
   * meter, `dbspl` when the configuration is uncalibrated, `rms` is `None` for NaN.
   */
  datatype Snapshot = Snapshot(
    measuredAt: Time,
    intervalS: Option<real>,
    rms: Option<real>,
    flux: real,
    dbfs: real,
    lufs: real,
    dbspl: Option<real>)

  /** dBSPL is reported when a calibrator is configured and the sensitivity is known. */
  predicate ReportsSpl(cal: Calibration) {
    cal.hasCalibrator && cal.sensitivityDbfs.Some?
  }

  /**
   * `_process_and_log` (and the body of the decibel meter's `handle_audio`): rms, dBFS,
   * flux and LUFS of a block; `None` when flux or LUFS raises.
   */
  function Measure(block: seq<real>, at: Time, sampleRate: real, withInterval: bool, dsp: Dsp, cal: Calibration)
    : (r: Option<Snapshot>)
    requires sampleRate > 0.0
    ensures r.Some? <==> dsp.onsetEnvelope(block) != [] && !dsp.meter(block).TooShort?
    ensures r.Some? ==> r.value.measuredAt == at
    ensures r.Some? ==> r.value.dbfs >= AudioMetrics.DbfsLowerBound && r.value.lufs >= AudioMetrics.LufsLowerBound
    ensures r.Some? ==> r.value.dbfs == AudioMetrics.Dbfs(block, dsp.sqrt, dsp.log10)
    ensures r.Some? ==> r.value.rms == AudioMetrics.Rms(block, dsp.sqrt)
    ensures r.Some? ==> r.value.lufs == AudioMetrics.Lufs(dsp.meter(block)).value
    ensures r.Some? ==> r.value.flux in dsp.onsetEnvelope(block)
    ensures r.Some? ==> (r.value.intervalS.Some? <==> withInterval)
    ensures r.Some? && withInterval ==> r.value.intervalS.value * sampleRate == |block| as real
    ensures r.Some? ==> (r.value.dbspl.Some? <==> ReportsSpl(cal))
    ensures r.Some? && ReportsSpl(cal) ==>
              r.value.dbspl.value - cal.referenceDbspl == r.value.dbfs - cal.sensitivityDbfs.value
  {
    var rms := AudioMetrics.Rms(block, dsp.sqrt);
    var dbfs := AudioMetrics.Dbfs(block, dsp.sqrt, dsp.log10);
    var flux :- AudioMetrics.Flux(dsp.onsetEnvelope(block));
    var lufs :- AudioMetrics.Lufs(dsp.meter(block));
    var interval := if withInterval then Some(|block| as real / sampleRate) else None;
    var spl := if ReportsSpl(cal) then Some(AudioMetrics.DbSpl(dbfs, cal.sensitivityDbfs.value, cal.referenceDbspl)) else None;
    Some(Snapshot(at, interval, rms, flux, dbfs, lufs, spl))
  }

  // ---------------------------------------------------------------- interval

  /**
   * The `py_umik` sink's interval: `settings.METRICS.INTERVAL_SECONDS` when the settings
   * have `METRICS` (3 otherwise), replaced by `DEFAULT_METRIC_INTERVAL_SECONDS` when
   * that is defined. Absent attributes are `None`.
   */
  function SettingsInterval(metricsInterval: Option<real>, defaultMetricInterval: Option<real>): (r: real)
    ensures defaultMetricInterval.Some? ==> r == defaultMetricInterval.value
    ensures defaultMetricInterval.None? && metricsInterval.Some? ==> r == metricsInterval.value
    ensures defaultMetricInterval.None? && metricsInterval.None? ==> r == 3.0
  {
    match defaultMetricInterval
    case Some(v) => v
    case None => metricsInterval.GetOr(3.0)
  }

  /** `DEFAULT_METRIC_INTERVAL_SECONDS` of the `samples` meter. */
  const SamplesInterval: real := 3.0

  /** `int(interval * sample_rate)` for a positive interval, else 0 (immediate mode). */
  function TargetSamples(interval: real, sampleRate: real): (n: int)
    requires sampleRate > 0.0
    ensures interval <= 0.0 ==> n == 0
    ensures interval > 0.0 ==> n as real <= interval * sampleRate < n as real + 1.0
  {
    if interval > 0.0 then Numeric.Trunc(interval * sampleRate) else 0
  }

  // ---------------------------------------------------------------- windowed sink

  /** The sink: its sample rate, target and, in windowed mode, the buffered chunks. */
  datatype Sink = Sink(sampleRate: real, target: int, buffer: seq<seq<real>>, accumulated: int)

  predicate Immediate(s: Sink) {
    s.target <= 0
  }

  /** The counter agrees with the buffer. */
  predicate Consistent(s: Sink) {
    s.accumulated == Blocks.TotalLength(s.buffer)
  }

  /** Between calls, a windowed sink holds less than one interval. */
  predicate Waiting(s: Sink) {
    Consistent(s) && s.accumulated < s.target
  }

  function NewSink(interval: real, sampleRate: real): (s: Sink)
    requires sampleRate > 0.0
    ensures s.sampleRate == sampleRate && s.target == TargetSamples(interval, sampleRate)
    ensures s.buffer == [] && s.accumulated == 0 && Consistent(s)
    ensures Immediate(s) <==> interval <= 0.0 || interval * sampleRate < 1.0
  {
    Sink(sampleRate, TargetSamples(interval, sampleRate), [], 0)
  }

  /**
   * The buffering step of windowed mode: append the chunk; once the count reaches the
   * target, hand out the concatenation and start over.
   */
  function Accumulate(s: Sink, chunk: seq<real>): (r: (Sink, Option<seq<real>>))
    requires !Immediate(s)
    ensures r.0.sampleRate == s.sampleRate && r.0.target == s.target
    ensures r.1.Some? <==> s.accumulated + |chunk| >= s.target
    ensures r.1.Some? ==> r.0.buffer == [] && r.0.accumulated == 0 && r.1.value == Blocks.Concat(s.buffer + [chunk])
    ensures r.1.None? ==> r.0.buffer == s.buffer + [chunk] && r.0.accumulated == s.accumulated + |chunk|
  {
    var buffer := s.buffer + [chunk];
    var accumulated := s.accumulated + |chunk|;
    if accumulated >= s.target then (s.(buffer := [], accumulated := 0), Some(Blocks.Concat(buffer)))
    else (s.(buffer := buffer, accumulated := accumulated), None)
  }

  /** A windowed step from a consistent sink keeps it consistent and, when nothing is emitted, below the target. */
  lemma AccumulateKeepsCount(s: Sink, chunk: seq<real>)
    requires !Immediate(s) && Consistent(s)
    ensures Waiting(Accumulate(s, chunk).0)
    ensures Accumulate(s, chunk).1.Some? ==> |Accumulate(s, chunk).1.value| >= s.target
  {
    Blocks.ConcatAppend(s.buffer, [chunk]);
    Blocks.ConcatOne(chunk);
    Blocks.ConcatLength(s.buffer + [chunk]);
  }

  /** What one call of `handle_audio` did. */
  datatype Outcome = Logged(snapshot: Snapshot) | Buffered | SinkError

  /**
   * `handle_audio` of the windowed sink. Immediate mode measures the chunk with its own
   * timestamp. Windowed mode buffers it and, at the target, measures the whole block at
   * `now`; if that raises, the error is logged and the buffer is not reset.
   */
  function HandleAudio(s: Sink, chunk: seq<real>, timestamp: Time, now: Time, dsp: Dsp, cal: Calibration)
    : (r: (Sink, Outcome))
    requires s.sampleRate > 0.0
    ensures r.0.sampleRate == s.sampleRate && r.0.target == s.target
    ensures Immediate(s) ==> r.0 == s && !r.1.Buffered?
    ensures Immediate(s) && r.1.Logged? ==> r.1.snapshot.measuredAt == timestamp
    ensures !Immediate(s) && r.1.Logged? ==> r.1.snapshot.measuredAt == now && r.0.buffer == [] && r.0.accumulated == 0
    ensures !Immediate(s) && !r.1.Logged? ==>
              r.0.buffer == s.buffer + [chunk] && r.0.accumulated == s.accumulated + |chunk|
    ensures !Immediate(s) ==> (r.1.Buffered? <==> s.accumulated + |chunk| < s.target)
    ensures r.1.Logged? ==> r.1.snapshot.intervalS.Some?
    ensures r.1.Logged? ==> (r.1.snapshot.dbspl.Some? <==> ReportsSpl(cal))
    ensures Immediate(s) ==>
              (r.1.Logged? <==> Measure(chunk, timestamp, s.sampleRate, true, dsp, cal).Some?) &&
              (r.1.Logged? ==> r.1.snapshot == Measure(chunk, timestamp, s.sampleRate, true, dsp, cal).value)
    ensures !Immediate(s) && s.accumulated + |chunk| >= s.target ==>
              (r.1.Logged? <==> Measure(Blocks.Concat(s.buffer + [chunk]), now, s.sampleRate, true, dsp, cal).Some?) &&
              (r.1.Logged? ==>
                 r.1.snapshot == Measure(Blocks.Concat(s.buffer + [chunk]), now, s.sampleRate, true, dsp, cal).value)
  {
    if Immediate(s) then
      var m := Measure(chunk, timestamp, s.sampleRate, true, dsp, cal);
      (s, if m.Some? then Logged(m.value) else SinkError)
    else
      var (next, block) := Accumulate(s, chunk);
      match block
      case None => (next, Buffered)
      case Some(b) =>
        match Measure(b, now, s.sampleRate, true, dsp, cal)
        case Some(m) => (next, Logged(m))
        case None => (s.(buffer := s.buffer + [chunk], accumulated := s.accumulated + |chunk|), SinkError)
  }

  /**
   * Whatever the chunk and whatever the metrics do, the counter stays equal to the number
   * of buffered samples; unless a measurement raised, fewer than `target` remain buffered;
   * a logged block covers at least one interval and its `interval_s` is its duration.
   */
  lemma HandleAudioInvariant(s: Sink, chunk: seq<real>, timestamp: Time, now: Time, dsp: Dsp, cal: Calibration)
    requires s.sampleRate > 0.0 && !Immediate(s) && Consistent(s)
    ensures var r := HandleAudio(s, chunk, timestamp, now, dsp, cal);
            Consistent(r.0) &&
            (!r.1.SinkError? ==> Waiting(r.0)) &&
            (r.1.Logged? ==> r.1.snapshot.intervalS.value * s.sampleRate >= s.target as real)
  {
    var step := Accumulate(s, chunk);
    AccumulateKeepsCount(s, chunk);
    if step.1.None? {
      assert HandleAudio(s, chunk, timestamp, now, dsp, cal) == (step.0, Buffered);
    } else {
      var b := step.1.value;
      var m := Measure(b, now, s.sampleRate, true, dsp, cal);
      if m.Some? {
        assert HandleAudio(s, chunk, timestamp, now, dsp, cal) == (step.0, Logged(m.value));
        assert m.value.intervalS.value * s.sampleRate == |b| as real;
      } else {
        AppendKeepsCount(s, chunk);
      }
    }
  }

  /** Putting the chunk back after a failed measurement keeps the counter right. */
  lemma AppendKeepsCount(s: Sink, chunk: seq<real>)
    requires Consistent(s)
    ensures Consistent(s.(buffer := s.buffer + [chunk], accumulated := s.accumulated + |chunk|))
  {
    Blocks.ConcatAppend(s.buffer, [chunk]);
    Blocks.ConcatOne(chunk);
    Blocks.ConcatLength(s.buffer + [chunk]);
  }

  // ---------------------------------------------------------------- whole stream

  /** The blocks one buffering step hands out: none or one. */
  function Emitted(block: Option<seq<real>>): seq<seq<real>> {
    if block.Some? then [block.value] else []
  }

  /** The buffering of windowed mode over a stream of chunks: the emitted blocks and the final sink. */
  function AccumulateAll(s: Sink, chunks: seq<seq<real>>): (r: (Sink, seq<seq<real>>))
    requires !Immediate(s)
    ensures r.0.target == s.target && r.0.sampleRate == s.sampleRate
    decreases |chunks|
  {
    if chunks == [] then (s, [])
    else
      var step := Accumulate(s, chunks[0]);
      var rest := AccumulateAll(step.0, chunks[1..]);
      (rest.0, Emitted(step.1) + rest.1)
  }

  /** One step moves the chunk into the emitted block or the buffer, in order. */
  lemma AccumulateStepConcat(s: Sink, chunk: seq<real>)
    requires !Immediate(s)
    ensures var step := Accumulate(s, chunk);
            Blocks.Concat(Emitted(step.1)) + Blocks.Concat(step.0.buffer) == Blocks.Concat(s.buffer) + chunk
  {
    Blocks.ConcatAppend(s.buffer, [chunk]);
    Blocks.ConcatOne(chunk);
    var step := Accumulate(s, chunk);
    if step.1.Some? {
      Blocks.ConcatOne(step.1.value);
    }
  }

  lemma Regroup(e: seq<real>, b: seq<real>, r1: seq<real>, rb: seq<real>, before: seq<real>, first: seq<real>, later: seq<real>)
    requires r1 + rb == b + later && e + b == before + first
    ensures (e + r1) + rb == before + (first + later)
  {
    calc {
      (e + r1) + rb;
      e + (r1 + rb);
      e + (b + later);
      (e + b) + later;
      (before + first) + later;
    }
  }

  /**
   * No sample is lost, repeated or reordered: the emitted blocks followed by what is still
   * buffered are the previously buffered samples followed by the stream.
   */
  lemma {:induction false} NothingLostOrRepeated(s: Sink, chunks: seq<seq<real>>)
    requires !Immediate(s)
    ensures var r := AccumulateAll(s, chunks);
            Blocks.Concat(r.1) + Blocks.Concat(r.0.buffer) == Blocks.Concat(s.buffer) + Blocks.Concat(chunks)
    decreases |chunks|
  {
    if chunks != [] {
      var step := Accumulate(s, chunks[0]);
      var rest := AccumulateAll(step.0, chunks[1..]);
      NothingLostOrRepeated(step.0, chunks[1..]);
      AccumulateStepConcat(s, chunks[0]);
      Blocks.ConcatAppend(Emitted(step.1), rest.1);
      Regroup(Blocks.Concat(Emitted(step.1)), Blocks.Concat(step.0.buffer), Blocks.Concat(rest.1),
              Blocks.Concat(rest.0.buffer), Blocks.Concat(s.buffer), chunks[0], Blocks.Concat(chunks[1..]));
    }
  }

  /** Every block holds at least `target` samples. */
  predicate AllCover(blocks: seq<seq<real>>, target: int) {
    forall i :: 0 <= i < |blocks| ==> |blocks[i]| >= target
  }

  /**
   * From a consistent sink, every emitted block holds at least one interval, and after a
   * non-empty stream (or from a waiting sink) fewer than one interval remain buffered.
   */
  lemma {:induction false} BlocksCoverInterval(s: Sink, chunks: seq<seq<real>>)
    requires !Immediate(s) && Consistent(s)
    ensures AllCover(AccumulateAll(s, chunks).1, s.target)
    ensures chunks != [] || s.accumulated < s.target ==> Waiting(AccumulateAll(s, chunks).0)
    decreases |chunks|
  {
    if chunks != [] {
      var step := Accumulate(s, chunks[0]);
      AccumulateKeepsCount(s, chunks[0]);
      BlocksCoverInterval(step.0, chunks[1..]);
      var rest := AccumulateAll(step.0, chunks[1..]);
      var head := Emitted(step.1);
      assert AllCover(head, s.target);
      forall i | 0 <= i < |head + rest.1|
        ensures |(head + rest.1)[i]| >= s.target
      {
        if i < |head| {
          assert (head + rest.1)[i] == head[i];
        } else {
          assert (head + rest.1)[i] == rest.1[i - |head|];
        }
      }
    }
  }

  /** With the 3-second interval at 48 kHz the sink emits every 144000 samples. */
  lemma SamplesTargetAt48k()
    ensures TargetSamples(SamplesInterval, 48000.0) == 144000
    ensures TargetSamples(SettingsInterval(None, None), 48000.0) == 144000
  {
  }

  // ---------------------------------------------------------------- decibel meter

  /** The decibel meter's `handle_audio`: every chunk is measured at its own timestamp, without `interval_s`. */
  function DecibelHandleAudio(chunk: seq<real>, timestamp: Time, sampleRate: real, dsp: Dsp, cal: Calibration)
    : (r: Outcome)
    requires sampleRate > 0.0
    ensures !r.Buffered?
    ensures r.SinkError? <==> dsp.onsetEnvelope(chunk) == [] || dsp.meter(chunk).TooShort?
    ensures r.Logged? ==> r.snapshot.measuredAt == timestamp && r.snapshot.intervalS.None?
    ensures r.Logged? ==> (r.snapshot.dbspl.Some? <==> ReportsSpl(cal))
    ensures r.Logged? ==> r.snapshot == Measure(chunk, timestamp, sampleRate, false, dsp, cal).value
    ensures r.Logged? ==>
              r.snapshot.dbfs == AudioMetrics.Dbfs(chunk, dsp.sqrt, dsp.log10) &&
              r.snapshot.lufs == AudioMetrics.Lufs(dsp.meter(chunk)).value &&
              (ReportsSpl(cal) ==>
                 r.snapshot.dbspl.value == AudioMetrics.DbSpl(r.snapshot.dbfs, cal.sensitivityDbfs.value, cal.referenceDbspl))
  {
    match Measure(chunk, timestamp, sampleRate, false, dsp, cal)
    case Some(m) => Logged(m)
    case None => SinkError
  }

  /** The decibel meter reports the same levels as the immediate mode of the windowed sink. */
  lemma DecibelMatchesImmediate(s: Sink, chunk: seq<real>, timestamp: Time, now: Time, dsp: Dsp, cal: Calibration)
    requires s.sampleRate > 0.0 && Immediate(s)
    ensures var d := DecibelHandleAudio(chunk, timestamp, s.sampleRate, dsp, cal);
            var w := HandleAudio(s, chunk, timestamp, now, dsp, cal).1;
            d.Logged? == w.Logged? &&
            (d.Logged? ==> d.snapshot == w.snapshot.(intervalS := None))
  {
  }
}
