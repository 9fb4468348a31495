/**
 * What `scipy.io.wavfile.read` returns and how the offline tools turn it into one
 * channel of samples in [-1, 1): integer PCM is divided by its full scale (2^15 for
 * int16, 2^31 for int32; other sample types are kept as they are), and several channels
 * are averaged per frame. Sample values are reals; `float32` rounding is not modelled.
 */
module Pcm {

  /** The sample types `wavfile.read` produces. */
  datatype Dtype = Int16 | Int32 | UInt8 | Float32 | Float64

  /** A 1-D array (one channel) or a 2-D array of frames, one value per channel. */
  datatype Samples = Mono(s: seq<real>) | Multi(frames: seq<seq<real>>)

  datatype Wav = Wav(dtype: Dtype, data: Samples)

  /** `data.size == 0`. */
  predicate IsEmpty(data: Samples) {
    match data
    case Mono(s) => s == []
    case Multi(f) => forall i :: 0 <= i < |f| ==> f[i] == []
  }

  /** The divisor of the integer types that are normalised. */
  function FullScale(d: Dtype): (r: real)
    requires d.Int16? || d.Int32?
    ensures r > 0.0
  {
    if d.Int16? then 32768.0 else 2147483648.0
  }

  /** One sample after bit-depth normalisation. */
  function Scale(d: Dtype, x: real): (r: real)
    ensures (d.Int16? || d.Int32?) ==> r * FullScale(d) == x
    ensures !(d.Int16? || d.Int32?) ==> r == x
  {
    if d.Int16? || d.Int32? then x / FullScale(d) else x
  }

  function ScaleAll(d: Dtype, s: seq<real>): (r: seq<real>)
    ensures |r| == |s|
    ensures forall i :: 0 <= i < |s| ==> r[i] == Scale(d, s[i])
  {
    seq(|s|, i requires 0 <= i < |s| => Scale(d, s[i]))
  }

  function Sum(xs: seq<real>): real {
    if xs == [] then 0.0 else xs[0] + Sum(xs[1..])
  }

  /**
   * `np.mean` of one frame. A frame of a WAV file has at least one channel; an empty
   * frame (which `numpy` would average to NaN) is given 0.
   */
  function Mean(frame: seq<real>): real {
    if frame == [] then 0.0 else Sum(frame) / |frame| as real
  }

  /** `np.mean(data, axis=1)`. */
  function MixToMono(frames: seq<seq<real>>): (r: seq<real>)
    ensures |r| == |frames|
    ensures forall i :: 0 <= i < |frames| ==> r[i] == Mean(frames[i])
  {
    seq(|frames|, i requires 0 <= i < |frames| => Mean(frames[i]))
  }

  /** Normalise each sample, then mix to mono: the order `enhance_voice` uses. */
  function NormalizeThenMix(w: Wav): (r: seq<real>)
    ensures w.data.Mono? ==> r == ScaleAll(w.dtype, w.data.s)
    ensures w.data.Multi? ==> |r| == |w.data.frames|
  {
    match w.data
    case Mono(s) => ScaleAll(w.dtype, s)
    case Multi(f) => MixToMono(seq(|f|, i requires 0 <= i < |f| => ScaleAll(w.dtype, f[i])))
  }

  /**
   * Mix to mono, then normalise by the type of the array that results: the order of
   * `MetricsAnalyzer._load_and_normalize_wav`. `np.mean` returns `float64`, so mixed
   * integer audio is never divided by its full scale.
   */
  function MixThenNormalize(w: Wav): (r: seq<real>)
    ensures w.data.Mono? ==> r == ScaleAll(w.dtype, w.data.s)
    ensures w.data.Multi? ==> r == MixToMono(w.data.frames)
  {
    var (dtype, mono) := match w.data
      case Mono(s) => (w.dtype, s)
      case Multi(f) => (Float64, MixToMono(f));
    ScaleAll(dtype, mono)
  }

  // ---------------------------------------------------------------- ranges

  /** A value an integer sample of type `d` can hold. */
  predicate InRange(d: Dtype, x: real) {
    match d
    case Int16 => x.Floor as real == x && -32768.0 <= x <= 32767.0
    case Int32 => x.Floor as real == x && -2147483648.0 <= x <= 2147483647.0
    case _ => true
  }

  predicate AllInRange(d: Dtype, s: seq<real>) {
    forall i :: 0 <= i < |s| ==> InRange(d, s[i])
  }

  predicate WavInRange(w: Wav) {
    match w.data
    case Mono(s) => AllInRange(w.dtype, s)
    case Multi(f) => forall i :: 0 <= i < |f| ==> AllInRange(w.dtype, f[i])
  }

  predicate InUnitRange(s: seq<real>) {
    forall i :: 0 <= i < |s| ==> -1.0 <= s[i] < 1.0
  }

  lemma ScaledSampleInUnitRange(d: Dtype, x: real)
    requires d.Int16? || d.Int32?
    requires InRange(d, x)
    ensures -1.0 <= Scale(d, x) < 1.0
  {
    var k := FullScale(d);
    assert -k <= x < k;
    DivInUnitRange(x, k);
  }

  lemma DivInUnitRange(x: real, k: real)
    requires k > 0.0 && -k <= x < k
    ensures -1.0 <= x / k < 1.0
  {
  }

  lemma {:induction false} SumBounds(xs: seq<real>, lo: real, hi: real)
    requires forall i :: 0 <= i < |xs| ==> lo <= xs[i] < hi
    ensures lo * |xs| as real <= Sum(xs)
    ensures xs != [] ==> Sum(xs) < hi * |xs| as real
  {
    if xs != [] {
      var t := xs[1..];
      assert forall i :: 0 <= i < |t| ==> t[i] == xs[i + 1];
      SumBounds(t, lo, hi);
      assert |xs| as real == |t| as real + 1.0;
    }
  }

  lemma MeanBounds(frame: seq<real>, lo: real, hi: real)
    requires frame != []
    requires forall i :: 0 <= i < |frame| ==> lo <= frame[i] < hi
    ensures lo <= Mean(frame) < hi
  {
    SumBounds(frame, lo, hi);
    var n := |frame| as real;
    DivBounds(Sum(frame), lo, hi, n);
  }

  lemma DivBounds(s: real, lo: real, hi: real, n: real)
    requires n > 0.0 && lo * n <= s < hi * n
    ensures lo <= s / n < hi
  {
    assert s / n * n == s;
  }

  /**
   * Normalising before mixing puts every sample of in-range int16 or int32 audio in
   * [-1, 1), whatever the channel count (as long as each frame has a channel).
   */
  lemma NormalizedInUnitRange(w: Wav)
    requires w.dtype.Int16? || w.dtype.Int32?
    requires WavInRange(w)
    requires w.data.Multi? ==> forall i :: 0 <= i < |w.data.frames| ==> w.data.frames[i] != []
    ensures InUnitRange(NormalizeThenMix(w))
  {
    var r := NormalizeThenMix(w);
    match w.data
    case Mono(s) =>
      forall i | 0 <= i < |s|
        ensures -1.0 <= r[i] < 1.0
      {
        ScaledSampleInUnitRange(w.dtype, s[i]);
      }
    case Multi(f) =>
      var g := seq(|f|, i requires 0 <= i < |f| => ScaleAll(w.dtype, f[i]));
      forall i | 0 <= i < |f|
        ensures -1.0 <= r[i] < 1.0
      {
        assert AllInRange(w.dtype, f[i]);
        forall j | 0 <= j < |g[i]|
          ensures -1.0 <= g[i][j] < 1.0
        {
          ScaledSampleInUnitRange(w.dtype, f[i][j]);
        }
        MeanBounds(g[i], -1.0, 1.0);
      }
  }

  // ---------------------------------------------------------------- mixing and scaling

  lemma {:induction false} SumScaled(d: Dtype, s: seq<real>)
    requires d.Int16? || d.Int32?
    ensures Sum(ScaleAll(d, s)) == Sum(s) / FullScale(d)
  {
    if s != [] {
      SumScaled(d, s[1..]);
      assert ScaleAll(d, s)[1..] == ScaleAll(d, s[1..]);
    }
  }

  /** The mean of normalised samples is the normalised mean. */
  lemma MeanScaled(d: Dtype, frame: seq<real>)
    requires d.Int16? || d.Int32?
    ensures Mean(ScaleAll(d, frame)) == Mean(frame) / FullScale(d)
  {
    if frame != [] {
      SumScaled(d, frame);
      var n := |frame| as real;
      var k := FullScale(d);
      assert Sum(frame) / k / n == Sum(frame) / n / k;
    }
  }

  /**
   * For mixed integer audio the two orders differ by exactly the full scale: mixing
   * first leaves every sample `FullScale` times too large.
   */
  lemma MixFirstSkipsScaling(w: Wav)
    requires w.dtype.Int16? || w.dtype.Int32?
    requires w.data.Multi?
    ensures |MixThenNormalize(w)| == |NormalizeThenMix(w)|
    ensures forall i :: 0 <= i < |MixThenNormalize(w)| ==>
              MixThenNormalize(w)[i] == NormalizeThenMix(w)[i] * FullScale(w.dtype)
  {
    var f := w.data.frames;
    forall i | 0 <= i < |f|
      ensures MixThenNormalize(w)[i] == NormalizeThenMix(w)[i] * FullScale(w.dtype)
    {
      MeanScaled(w.dtype, f[i]);
    }
  }

  /** Single-channel audio, and audio of the float types, come out the same either way. */
  lemma OrdersAgree(w: Wav)
    requires w.data.Mono? || !(w.dtype.Int16? || w.dtype.Int32?)
    ensures MixThenNormalize(w) == NormalizeThenMix(w)
  {
    match w.data
    case Mono(s) =>
    case Multi(f) =>
      var g := seq(|f|, i requires 0 <= i < |f| => ScaleAll(w.dtype, f[i]));
      forall i | 0 <= i < |f|
        ensures g[i] == f[i]
      {
      }
  }

  /** A stereo int16 frame of two half-scale samples: 16384 as written, 0.5 when normalised first. */
  lemma StereoInt16Example()
    ensures MixThenNormalize(Wav(Int16, Multi([[16384.0, 16384.0]]))) == [16384.0]
    ensures NormalizeThenMix(Wav(Int16, Multi([[16384.0, 16384.0]]))) == [0.5]
  {
    var frame := [16384.0, 16384.0];
    assert Sum(frame) == 32768.0 by {
      assert frame[1..] == [16384.0];
      assert frame[1..][1..] == [];
    }
    var scaled := ScaleAll(Int16, frame);
    assert scaled == [0.5, 0.5];
    assert Sum(scaled) == 1.0 by {
      assert scaled[1..] == [0.5];
      assert scaled[1..][1..] == [];
    }
  }
}
