/**
 * `AudioMetrics`: RMS, the dBFS and LUFS clamps, the dBSPL conversion, peak flux and
 * the LUFS chunk buffer. Samples and levels are reals; `sqrt`, `log10`, librosa's onset
 * envelope and the pyloudnorm meter are parameters, and the laws a lemma relies on are
 * its preconditions.
 */
module AudioMetrics {
  import opened Wrappers
  import Numeric

  const LufsMeterDurationSeconds: int := 3
  const DbfsLowerBound: real := -120.0
  const LufsLowerBound: real := -120.0
  const Epsilon: real := 0.0000000001

  /** `int(LUFS_METER_DURATION_SECONDS * sample_rate)`. */
  function LufsBlockSize(sampleRate: real): (n: int)
    requires sampleRate >= 0.0
    ensures n as real <= 3.0 * sampleRate < n as real + 1.0
  {
    Numeric.Trunc(LufsMeterDurationSeconds as real * sampleRate)
  }

  // ---------------------------------------------------------------- rms

  function SumSquares(x: seq<real>): (r: real)
    ensures r >= 0.0
  {
    if x == [] then 0.0 else SumSquares(x[..|x| - 1]) + x[|x| - 1] * x[|x| - 1]
  }

  predicate IsSilence(x: seq<real>) {
    forall i :: 0 <= i < |x| ==> x[i] == 0.0
  }

  /**
   * `np.sqrt(np.mean(x ** 2))`. The mean of an empty chunk is NaN, written `None`;
   * otherwise the root of the mean square.
   */
  function Rms(x: seq<real>, sqrt: real -> real): (r: Option<real>)
    ensures r.None? <==> x == []
  {
    if x == [] then None else Some(sqrt(SumSquares(x) / |x| as real))
  }

  /** What the model needs of `np.sqrt` on non-negative arguments. */
  ghost predicate IsSqrt(sqrt: real -> real) {
    sqrt(0.0) == 0.0 && forall v :: v >= 0.0 ==> sqrt(v) >= 0.0 && sqrt(v) * sqrt(v) == v
  }

  lemma {:induction false} SilenceHasNoEnergy(x: seq<real>)
    requires IsSilence(x)
    ensures SumSquares(x) == 0.0
  {
    if x != [] {
      SilenceHasNoEnergy(x[..|x| - 1]);
    }
  }

  /** RMS is never negative, and its square is the mean square of the chunk. */
  lemma RmsIsRootMeanSquare(x: seq<real>, sqrt: real -> real)
    requires IsSqrt(sqrt) && x != []
    ensures Rms(x, sqrt).value >= 0.0
    ensures Rms(x, sqrt).value * Rms(x, sqrt).value * |x| as real == SumSquares(x)
  {
    var m := SumSquares(x) / |x| as real;
    assert m >= 0.0;
    assert m * |x| as real == SumSquares(x);
  }

  /** An all-zero chunk has RMS 0. */
  lemma RmsOfSilence(x: seq<real>, sqrt: real -> real)
    requires IsSqrt(sqrt) && x != [] && IsSilence(x)
    ensures Rms(x, sqrt) == Some(0.0)
  {
    SilenceHasNoEnergy(x);
    assert SumSquares(x) / |x| as real == 0.0;
  }

  // ---------------------------------------------------------------- dBFS

  /**
   * `20 * log10(rms + 1e-10)` unless that is not above -120 (NaN included), in which
   * case -120.
   */
  function Dbfs(x: seq<real>, sqrt: real -> real, log10: real -> real): (r: real)
    ensures r >= DbfsLowerBound
    ensures x != [] && 20.0 * log10(Rms(x, sqrt).value + Epsilon) > DbfsLowerBound ==>
              r == 20.0 * log10(Rms(x, sqrt).value + Epsilon)
    ensures x != [] && 20.0 * log10(Rms(x, sqrt).value + Epsilon) <= DbfsLowerBound ==> r == DbfsLowerBound
    ensures x == [] ==> r == DbfsLowerBound
  {
    match Rms(x, sqrt)
    case None => DbfsLowerBound
    case Some(rms) =>
      var level := 20.0 * log10(rms + Epsilon);
      if level > DbfsLowerBound then level else DbfsLowerBound
  }

  /** Silence reads as the lower bound: `20 * log10(1e-10)` is -200. */
  lemma DbfsOfSilence(x: seq<real>, sqrt: real -> real, log10: real -> real)
    requires IsSqrt(sqrt) && IsSilence(x)
    requires log10(Epsilon) == -10.0
    ensures Dbfs(x, sqrt, log10) == DbfsLowerBound
  {
    if x != [] {
      RmsOfSilence(x, sqrt);
      assert Rms(x, sqrt).value + Epsilon == Epsilon;
    }
  }

  /** With monotone `sqrt` and `log10`, a chunk with more energy per sample never reads lower. */
  lemma DbfsMonotone(x: seq<real>, y: seq<real>, sqrt: real -> real, log10: real -> real)
    requires x != [] && y != []
    requires forall a, b :: 0.0 <= a <= b ==> sqrt(a) <= sqrt(b)
    requires forall a, b :: 0.0 < a <= b ==> log10(a) <= log10(b)
    requires IsSqrt(sqrt)
    requires SumSquares(x) / |x| as real <= SumSquares(y) / |y| as real
    ensures Dbfs(x, sqrt, log10) <= Dbfs(y, sqrt, log10)
  {
    RmsIsRootMeanSquare(x, sqrt);
    RmsIsRootMeanSquare(y, sqrt);
    var rx, ry := Rms(x, sqrt).value, Rms(y, sqrt).value;
    assert rx <= ry;
    assert log10(rx + Epsilon) <= log10(ry + Epsilon);
  }

  // ---------------------------------------------------------------- dBSPL

  /** `dbfs - sensitivity + reference`. */
  function DbSpl(dbfs: real, sensitivityDbfs: real, referenceDbspl: real): (r: real)
    ensures dbfs == sensitivityDbfs ==> r == referenceDbspl
    ensures r - referenceDbspl == dbfs - sensitivityDbfs
  {
    dbfs - sensitivityDbfs + referenceDbspl
  }

  /** The level a dBSPL reading came from. */
  function DbfsOfSpl(dbspl: real, sensitivityDbfs: real, referenceDbspl: real): real {
    dbspl - referenceDbspl + sensitivityDbfs
  }

  /** dBSPL and the inverse conversion undo each other, and a step in dBFS is the same step in dBSPL. */
  lemma DbSplInverse(dbfs: real, sensitivityDbfs: real, referenceDbspl: real, step: real)
    ensures DbfsOfSpl(DbSpl(dbfs, sensitivityDbfs, referenceDbspl), sensitivityDbfs, referenceDbspl) == dbfs
    ensures DbSpl(dbfs + step, sensitivityDbfs, referenceDbspl) == DbSpl(dbfs, sensitivityDbfs, referenceDbspl) + step
  {
  }

  // ---------------------------------------------------------------- LUFS

  /**
   * What `Meter.integrated_loudness` produces: a finite loudness, minus infinity (all
   * blocks gated away), or a `ValueError` (input shorter than one block).
   */
  datatype Loudness = Measured(lufs: real) | MinusInfinity | TooShort

  /** `lufs`: the meter's value raised to at least -120; the meter's error propagates as `None`. */
  function Lufs(meter: Loudness): (r: Option<real>)
    ensures r.None? <==> meter.TooShort?
    ensures r.Some? ==> r.value >= LufsLowerBound
    ensures meter.Measured? && meter.lufs > LufsLowerBound ==> r == Some(meter.lufs)
    ensures meter.Measured? && meter.lufs <= LufsLowerBound ==> r == Some(LufsLowerBound)
    ensures meter.MinusInfinity? ==> r == Some(LufsLowerBound)
  {
    match meter
    case TooShort => None
    case MinusInfinity => Some(LufsLowerBound)
    case Measured(v) => Some(if v > LufsLowerBound then v else LufsLowerBound)
  }

  /** Clamping is monotone: a louder reading never gives a lower result. */
  lemma LufsMonotone(a: real, b: real)
    requires a <= b
    ensures Lufs(Measured(a)).value <= Lufs(Measured(b)).value
    ensures Lufs(MinusInfinity).value <= Lufs(Measured(a)).value
  {
  }

  // ---------------------------------------------------------------- flux

  /** `np.max(onset_env)`; the maximum of an empty envelope raises, written `None`. */
  function Flux(onsetEnvelope: seq<real>): (r: Option<real>)
    ensures r.None? <==> onsetEnvelope == []
    ensures r.Some? ==> r.value in onsetEnvelope
    ensures r.Some? ==> forall i :: 0 <= i < |onsetEnvelope| ==> onsetEnvelope[i] <= r.value
  {
    if onsetEnvelope == [] then None
    else if |onsetEnvelope| == 1 then Some(onsetEnvelope[0])
    else
      var rest := Flux(onsetEnvelope[1..]).value;
      Some(if onsetEnvelope[0] >= rest then onsetEnvelope[0] else rest)
  }

  lemma FluxExample()
    ensures Flux([0.1, 0.5, 0.2]) == Some(0.5)
  {
    assert [0.1, 0.5, 0.2][1..] == [0.5, 0.2];
    assert [0.5, 0.2][1..] == [0.2];
  }

  // ---------------------------------------------------------------- LUFS chunk buffer

  datatype LufsBuffer = LufsBuffer(chunks: seq<seq<real>>)

  const EmptyBuffer := LufsBuffer([])

  /** `aggregate_lufs_chunks`: the chunk joins the end of the buffer. */
  function Aggregate(b: LufsBuffer, chunk: seq<real>): (r: LufsBuffer)
    ensures |r.chunks| == |b.chunks| + 1 && r.chunks[..|b.chunks|] == b.chunks
    ensures r.chunks[|b.chunks|] == chunk
  {
    LufsBuffer(b.chunks + [chunk])
  }

  /** `get_lufs_chunks`: every buffered chunk, and an empty buffer. */
  function Drain(b: LufsBuffer): (r: (seq<seq<real>>, LufsBuffer))
    ensures r.1 == EmptyBuffer
  {
    (b.chunks, EmptyBuffer)
  }

  function AggregateAll(b: LufsBuffer, chunks: seq<seq<real>>): LufsBuffer
    decreases |chunks|
  {
    if chunks == [] then b else AggregateAll(Aggregate(b, chunks[0]), chunks[1..])
  }

  /** Buffering chunks one by one and draining returns them all, in order, and empties the buffer. */
  lemma {:induction false} DrainReturnsAggregated(b: LufsBuffer, chunks: seq<seq<real>>)
    ensures AggregateAll(b, chunks).chunks == b.chunks + chunks
    ensures Drain(AggregateAll(EmptyBuffer, chunks)) == (chunks, EmptyBuffer)
    decreases |chunks|
  {
    if chunks != [] {
      DrainReturnsAggregated(Aggregate(b, chunks[0]), chunks[1..]);
      assert b.chunks + [chunks[0]] + chunks[1..] == b.chunks + chunks;
      DrainReturnsAggregated(Aggregate(EmptyBuffer, chunks[0]), chunks[1..]);
      assert [chunks[0]] + chunks[1..] == chunks;
    }
  }
}
