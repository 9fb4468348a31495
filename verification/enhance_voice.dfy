/**
 * The voice enhancer (`src/app/enhance_voice.py`): a WAV file normalised to one channel,
 * cut into parts of `chunk_minutes` each (the last may be shorter), each part filtered,
 * guarded against peaks above full scale and converted to int16, and written to
 * `<root>_partNNN<ext>`. Noise reduction, the Butterworth filter and pydub's compression
 * and normalisation are foreign DSP and enter as functions.
 */
module EnhanceVoice {
  import opened Wrappers
  import Numeric
  import Text
  import Paths
  import Pcm
  import Blocks

  const DefaultLowHz: real := 300.0
  const DefaultHighHz: real := 3400.0
  const DefaultChunkMinutes: int := 10
  const FilterOrder: int := 6
  const Int16Peak: real := 32767.0

  // ---------------------------------------------------------------- band edges

  /** `butter_bandpass`: the cut-offs as fractions of the Nyquist frequency `0.5 * fs`. */
  function BandEdges(lowcut: real, highcut: real, fs: real): (r: (real, real))
    requires fs != 0.0
    ensures r.0 * (0.5 * fs) == lowcut && r.1 * (0.5 * fs) == highcut
  {
    var nyq := 0.5 * fs;
    (lowcut / nyq, highcut / nyq)
  }

  /** A band strictly inside (0, fs/2) becomes a band strictly inside (0, 1), in order. */
  lemma BandInsideUnitInterval(lowcut: real, highcut: real, fs: real)
    requires fs > 0.0 && 0.0 < lowcut < highcut < 0.5 * fs
    ensures var (lo, hi) := BandEdges(lowcut, highcut, fs);
            0.0 < lo < hi < 1.0
  {
    var nyq := 0.5 * fs;
    var (lo, hi) := BandEdges(lowcut, highcut, fs);
    QuotientOrder(lowcut, highcut, nyq);
    QuotientOrder(highcut, nyq, nyq);
    assert nyq / nyq == 1.0;
  }

  lemma QuotientOrder(a: real, b: real, d: real)
    requires 0.0 < a < b && d > 0.0
    ensures 0.0 < a / d < b / d
  {
  }

  /** The default voice band at 48 kHz. */
  lemma DefaultBandAt48k()
    ensures BandEdges(DefaultLowHz, DefaultHighHz, 48000.0) == (0.0125, 17.0 / 120.0)
  {
  }

  // ---------------------------------------------------------------- peak guard

  /** `np.max(np.abs(x))` of a non-empty signal. */
  function MaxAbs(x: seq<real>): (m: real)
    requires x != []
    ensures forall i :: 0 <= i < |x| ==> Numeric.Abs(x[i]) <= m
    ensures exists i :: 0 <= i < |x| && Numeric.Abs(x[i]) == m
  {
    if |x| == 1 then Numeric.Abs(x[0])
    else
      var rest := MaxAbs(x[1..]);
      assert forall i :: 1 <= i < |x| ==> x[i] == x[1..][i - 1];
      if Numeric.Abs(x[0]) >= rest then Numeric.Abs(x[0]) else rest
  }

  lemma DivideByPeak(v: real, m: real)
    requires m > 1.0 && Numeric.Abs(v) <= m
    ensures -1.0 <= v / m <= 1.0 && v / m * m == v
  {
  }

  /**
   * The guard before the int16 conversion: a signal whose peak exceeds 1 is divided by
   * its peak. `np.max` of an empty signal raises, written `None`.
   */
  function PeakGuard(x: seq<real>): (r: Option<seq<real>>)
    ensures r.None? <==> x == []
    ensures r.Some? ==> Guarded(x, r.value, MaxAbs(x))
  {
    if x == [] then None else Some(GuardWith(x, MaxAbs(x)))
  }

  /**
   * `y` is `x` guarded against the peak `m`: the same length, every sample in [-1, 1],
   * unchanged when `m` is at most 1 and `x` divided by `m` otherwise.
   */
  predicate Guarded(x: seq<real>, y: seq<real>, m: real) {
    |y| == |x| && (forall i :: 0 <= i < |y| ==> -1.0 <= y[i] <= 1.0) &&
    (m <= 1.0 ==> y == x) &&
    (m > 1.0 ==> forall i :: 0 <= i < |y| ==> y[i] * m == x[i])
  }

  /** The guard for a signal whose magnitudes are all at most `m`. */
  function GuardWith(x: seq<real>, m: real): (y: seq<real>)
    requires forall i :: 0 <= i < |x| ==> Numeric.Abs(x[i]) <= m
    ensures Guarded(x, y, m)
  {
    if m > 1.0 then DivideAll(x, m)
    else
      WithinPeak(x, m);
      x
  }

  /** `x / m` for a peak `m` above 1. */
  function DivideAll(x: seq<real>, m: real): (y: seq<real>)
    requires m > 1.0 && forall i :: 0 <= i < |x| ==> Numeric.Abs(x[i]) <= m
    ensures |y| == |x|
    ensures forall i :: 0 <= i < |x| ==> -1.0 <= y[i] <= 1.0 && y[i] * m == x[i]
  {
    var y := seq(|x|, i requires 0 <= i < |x| => x[i] / m);
    assert forall i :: 0 <= i < |x| ==> -1.0 <= y[i] <= 1.0 && y[i] * m == x[i] by {
      forall i | 0 <= i < |x|
        ensures -1.0 <= y[i] <= 1.0 && y[i] * m == x[i]
      {
        DivideByPeak(x[i], m);
      }
    }
    y
  }

  lemma WithinPeak(x: seq<real>, m: real)
    requires m <= 1.0 && forall i :: 0 <= i < |x| ==> Numeric.Abs(x[i]) <= m
    ensures forall i :: 0 <= i < |x| ==> -1.0 <= x[i] <= 1.0
  {
  }

  /** The low 16 bits of an integer, read as a signed value. */
  function Wrap16(n: int): (r: int)
    ensures -32768 <= r <= 32767
    ensures -32768 <= n <= 32767 ==> r == n
  {
    (n + 32768) % 65536 - 32768
  }

  /** `(x * 32767).astype(np.int16)`: truncation toward zero, then 16 bits. */
  function ToInt16(x: seq<real>): (r: seq<int>)
    ensures |r| == |x|
    ensures forall i :: 0 <= i < |x| ==> -32768 <= r[i] <= 32767
  {
    seq(|x|, i requires 0 <= i < |x| => Wrap16(Numeric.Trunc(x[i] * Int16Peak)))
  }

  lemma NoWrapInUnitRange(v: real)
    requires -1.0 <= v <= 1.0
    ensures -32767 <= Numeric.Trunc(v * Int16Peak) <= 32767
    ensures Wrap16(Numeric.Trunc(v * Int16Peak)) == Numeric.Trunc(v * Int16Peak)
  {
    assert -32767.0 <= v * Int16Peak <= 32767.0;
  }

  /**
   * `process_chunk` up to the int16 samples handed to pydub: optional noise reduction,
   * the band-pass filter, the peak guard and the conversion. `bandpass` is `None` when
   * `sosfiltfilt` raises (a chunk no longer than the filter's padding length).
   */
  function ProcessChunk(chunk: seq<real>, reduceNoise: bool,
                        denoise: seq<real> -> seq<real>, bandpass: seq<real> -> Option<seq<real>>): (r: Option<seq<int>>)
    ensures var filtered := bandpass(if reduceNoise then denoise(chunk) else chunk);
            (r.None? <==> filtered.None? || filtered.value == []) &&
            (r.Some? ==> |r.value| == |filtered.value| && r.value == ToInt16(PeakGuard(filtered.value).value))
  {
    var filtered :- bandpass(if reduceNoise then denoise(chunk) else chunk);
    var guarded :- PeakGuard(filtered);
    Some(ToInt16(guarded))
  }

  /**
   * The conversion never wraps around: after the guard every sample is within
   * [-32767, 32767] and is the truncation of the guarded value times 32767.
   */
  lemma ProcessedSamplesFit(chunk: seq<real>, reduceNoise: bool,
                            denoise: seq<real> -> seq<real>, bandpass: seq<real> -> Option<seq<real>>)
    requires ProcessChunk(chunk, reduceNoise, denoise, bandpass).Some?
    ensures var filtered := bandpass(if reduceNoise then denoise(chunk) else chunk).value;
            var guarded := PeakGuard(filtered).value;
            var out := ProcessChunk(chunk, reduceNoise, denoise, bandpass).value;
            forall i :: 0 <= i < |out| ==>
              -32767 <= out[i] <= 32767 && out[i] == Numeric.Trunc(guarded[i] * Int16Peak)
  {
    var filtered := bandpass(if reduceNoise then denoise(chunk) else chunk).value;
    GuardedFits(filtered);
  }

  /** The int16 conversion of a guarded non-empty signal does not wrap. */
  lemma GuardedFits(filtered: seq<real>)
    requires filtered != []
    ensures var guarded := PeakGuard(filtered).value;
            forall i :: 0 <= i < |ToInt16(guarded)| ==>
              -32767 <= ToInt16(guarded)[i] <= 32767 && ToInt16(guarded)[i] == Numeric.Trunc(guarded[i] * Int16Peak)
  {
    var guarded := PeakGuard(filtered).value;
    assert Guarded(filtered, guarded, MaxAbs(filtered));
    ToInt16NoWrap(guarded);
  }

  lemma ToInt16NoWrap(g: seq<real>)
    requires forall i :: 0 <= i < |g| ==> -1.0 <= g[i] <= 1.0
    ensures forall i :: 0 <= i < |g| ==>
              -32767 <= ToInt16(g)[i] <= 32767 && ToInt16(g)[i] == Numeric.Trunc(g[i] * Int16Peak)
  {
    forall i | 0 <= i < |g|
      ensures -32767 <= ToInt16(g)[i] <= 32767 && ToInt16(g)[i] == Numeric.Trunc(g[i] * Int16Peak)
    {
      NoWrapInUnitRange(g[i]);
    }
  }

  // ---------------------------------------------------------------- parts

  /** `int(chunk_minutes * 60 * sample_rate)` on integers. */
  function ChunkSamples(chunkMinutes: int, sampleRate: int): int {
    chunkMinutes * 60 * sampleRate
  }

  /** `math.ceil(total / chunk_samples)`, as a loop count (a negative count runs no iteration). */
  function PartCount(total: nat, cs: int): (t: nat)
    requires cs != 0
    ensures cs > 0 ==> total <= t * cs && (t == 0 || (t - 1) * cs < total)
    ensures cs < 0 ==> t == 0
  {
    var c := Numeric.Ceil(total as real / cs as real);
    if cs < 0 then
      assert total as real / cs as real <= 0.0;
      0
    else
      PartCountBounds(total, cs, c);
      if c > 0 then c else 0
  }

  lemma PartCountBounds(total: nat, cs: int, c: int)
    requires cs > 0
    requires total as real / cs as real <= c as real < total as real / cs as real + 1.0
    ensures c >= 0 && total <= c * cs && (c == 0 || (c - 1) * cs < total)
  {
    var t, k := total as real, cs as real;
    assert c >= 0 by {
      DivNonNegative(t, k);
    }
    ScaleUp(t, k, c as real);
    RealOfProduct(c, cs);
    assert total <= c * cs;
    if c > 0 {
      ScaleDown(t, k, c as real);
      RealOfProduct(c - 1, cs);
      assert (c - 1) as real == c as real - 1.0;
      assert (c - 1) * cs < total;
    }
  }

  /** Multiplying `t / k <= c` through by `k`. */
  lemma ScaleUp(t: real, k: real, c: real)
    requires k > 0.0 && t / k <= c
    ensures t <= c * k
  {
    DivTimes(t, k);
    MulMonoReal(t / k, c, k);
  }

  /** Multiplying `c < t / k + 1` through by `k`. */
  lemma ScaleDown(t: real, k: real, c: real)
    requires k > 0.0 && c < t / k + 1.0
    ensures (c - 1.0) * k < t
  {
    DivTimes(t, k);
    MulStrictReal(c - 1.0, t / k, k);
  }

  lemma DivTimes(t: real, k: real)
    requires k > 0.0
    ensures t / k * k == t
  {
  }

  lemma DivNonNegative(t: real, k: real)
    requires t >= 0.0 && k > 0.0
    ensures t / k >= 0.0
  {
  }

  lemma RealOfProduct(a: int, b: int)
    ensures (a * b) as real == a as real * b as real
  {
  }

  lemma MulMonoReal(a: real, b: real, k: real)
    requires a <= b && k > 0.0
    ensures a * k <= b * k
  {
  }

  lemma MulStrictReal(a: real, b: real, k: real)
    requires a < b && k > 0.0
    ensures a * k < b * k
  {
  }

  lemma MulLe(a: int, b: int, c: int)
    requires 0 <= a <= b && c >= 0
    ensures a * c <= b * c
  {
  }

  /** Part `i`: samples `[i * cs, min((i + 1) * cs, total))`. */
  function Part(data: seq<real>, cs: int, i: nat): (p: seq<real>)
    requires cs > 0 && i * cs < |data|
    ensures 0 < |p| <= cs
    ensures |p| < cs ==> (i + 1) * cs > |data|
  {
    data[i * cs..Numeric.Min(i * cs + cs, |data|)]
  }

  function Parts(data: seq<real>, cs: int): (ps: seq<seq<real>>)
    requires cs > 0
    ensures |ps| == PartCount(|data|, cs)
  {
    var t := PartCount(|data|, cs);
    seq(t, i requires 0 <= i < t =>
      MulLe(i, t - 1, cs);
      Part(data, cs, i))
  }

  lemma PartAt(data: seq<real>, cs: int, i: nat)
    requires cs > 0 && i < PartCount(|data|, cs)
    ensures i * cs < |data|
    ensures Parts(data, cs)[i] == data[i * cs..Numeric.Min(i * cs + cs, |data|)]
  {
    MulLe(i, PartCount(|data|, cs) - 1, cs);
  }

  /** The first `k` parts cover the signal up to `min(k * cs, total)`. */
  lemma {:induction false} PartsCoverPrefix(data: seq<real>, cs: int, k: nat)
    requires cs > 0 && k <= PartCount(|data|, cs)
    ensures Blocks.Concat(Parts(data, cs)[..k]) == data[..Numeric.Min(k * cs, |data|)]
  {
    if k > 0 {
      var ps := Parts(data, cs);
      var m, n := (k - 1) * cs, k * cs;
      assert n == m + cs;
      PartAt(data, cs, k - 1);
      var hi := Numeric.Min(n, |data|);
      var front, last := ps[..k - 1], ps[k - 1];
      assert last == data[m..hi];
      assert ps[..k] == front + [last];
      assert Blocks.Concat(front) == data[..m] by {
        PartsCoverPrefix(data, cs, k - 1);
        assert Numeric.Min(m, |data|) == m;
      }
      assert Blocks.Concat(front + [last]) == Blocks.Concat(front) + last by {
        Blocks.ConcatAppend(front, [last]);
        Blocks.ConcatOne(last);
      }
      assert data[..m] + data[m..hi] == data[..hi];
    }
  }

  /**
   * The parts partition the signal: in order they make up all of it, none is empty,
   * and every part but the last holds exactly `cs` samples.
   */
  lemma PartsPartition(data: seq<real>, cs: int)
    requires cs > 0
    ensures Blocks.Concat(Parts(data, cs)) == data
    ensures forall i :: 0 <= i < |Parts(data, cs)| ==> Parts(data, cs)[i] != []
    ensures forall i :: 0 <= i < |Parts(data, cs)| - 1 ==> |Parts(data, cs)[i]| == cs
  {
    var ps := Parts(data, cs);
    var t := |ps|;
    PartsCoverPrefix(data, cs, t);
    assert ps[..t] == ps;
    forall i | 0 <= i < t - 1
      ensures |ps[i]| == cs
    {
      MulLe(i + 1, t - 1, cs);
    }
  }

  // ---------------------------------------------------------------- names

  /**
   * The file part `i` is written to: `<out_root>_partNNN<out_ext>` when an output path
   * is given, `<input root>_enhanced_partNNN.mp3` otherwise, NNN being `i + 1` in at
   * least three digits.
   */
  function PartName(outputPath: Option<string>, inputPath: string, i: nat): string {
    if Text.Truthy(outputPath) then
      var (root, ext) := Paths.Splitext(outputPath.value);
      root + "_part" + Text.ZeroPad(i + 1, 3) + ext
    else
      Paths.Splitext(inputPath).0 + "_enhanced_part" + Text.ZeroPad(i + 1, 3) + ".mp3"
  }

  lemma CommonEnds(p: string, x: string, y: string, q: string)
    requires p + x + q == p + y + q
    ensures x == y
  {
    assert |x| == |y|;
    assert x == (p + x + q)[|p|..|p| + |x|];
    assert y == (p + y + q)[|p|..|p| + |y|];
  }

  /** Different parts never overwrite each other. */
  lemma PartNamesDistinct(outputPath: Option<string>, inputPath: string, i: nat, j: nat)
    requires PartName(outputPath, inputPath, i) == PartName(outputPath, inputPath, j)
    ensures i == j
  {
    if Text.Truthy(outputPath) {
      var (root, ext) := Paths.Splitext(outputPath.value);
      CountersDistinct(root + "_part", ext, i, j);
    } else {
      CountersDistinct(Paths.Splitext(inputPath).0 + "_enhanced_part", ".mp3", i, j);
    }
  }

  lemma CountersDistinct(p: string, q: string, i: nat, j: nat)
    requires p + Text.ZeroPad(i + 1, 3) + q == p + Text.ZeroPad(j + 1, 3) + q
    ensures i == j
  {
    CommonEnds(p, Text.ZeroPad(i + 1, 3), Text.ZeroPad(j + 1, 3), q);
    Text.ZeroPadInjective(i + 1, j + 1, 3);
  }

  lemma SplitTalk()
    ensures Paths.Splitext("talk.wav") == ("talk", ".wav")
  {
    var p := "talk.wav";
    assert Paths.LastIndexOf(p, '/') == -1 by {
      assert Paths.NoChar(p, '/');
    }
    Paths.LastIndexAt(p, '.', 4);
    assert Paths.HasNonDot(p, 0, 4) by {
      assert p[0] != '.';
    }
    assert p[..4] == "talk" && p[4..] == ".wav";
  }

  lemma SplitVoice()
    ensures Paths.Splitext("out/voice.mp3") == ("out/voice", ".mp3")
  {
    var p := "out/voice.mp3";
    Paths.LastIndexAt(p, '/', 3);
    Paths.LastIndexAt(p, '.', 9);
    assert Paths.HasNonDot(p, 4, 9) by {
      assert p[4] != '.';
    }
    assert p[..9] == "out/voice" && p[9..] == ".mp3";
  }

  lemma PadExamples()
    ensures Text.ZeroPad(1, 3) == "001" && Text.ZeroPad(12, 3) == "012"
  {
    assert Text.NatToString(1) == "1";
    assert Text.NatToString(12) == "12";
  }

  lemma DefaultPartName(inputPath: string, i: nat, root: string, pad: string)
    requires Paths.Splitext(inputPath).0 == root && Text.ZeroPad(i + 1, 3) == pad
    ensures PartName(None, inputPath, i) == root + "_enhanced_part" + pad + ".mp3"
  {
  }

  lemma GivenPartName(outputPath: string, inputPath: string, i: nat, root: string, ext: string, pad: string)
    requires outputPath != "" && Paths.Splitext(outputPath) == (root, ext) && Text.ZeroPad(i + 1, 3) == pad
    ensures PartName(Some(outputPath), inputPath, i) == root + "_part" + pad + ext
  {
  }

  /** The first part of "talk.wav" by default. */
  lemma PartNameDefaultExample()
    ensures PartName(None, "talk.wav", 0) == "talk_enhanced_part001.mp3"
  {
    SplitTalk();
    PadExamples();
    DefaultPartName("talk.wav", 0, "talk", "001");
    DefaultNameText();
  }

  lemma DefaultNameText()
    ensures "talk" + "_enhanced_part" + "001" + ".mp3" == "talk_enhanced_part001.mp3"
  {
    assert "talk" + "_enhanced_part" == "talk_enhanced_part";
    assert "talk_enhanced_part" + "001" == "talk_enhanced_part001";
  }

  /** The twelfth part of an explicit "out/voice.mp3". */
  lemma PartNameOutputExample()
    ensures PartName(Some("out/voice.mp3"), "talk.wav", 11) == "out/voice_part012.mp3"
  {
    SplitVoice();
    PadExamples();
    GivenPartName("out/voice.mp3", "talk.wav", 11, "out/voice", ".mp3", "012");
    GivenNameText();
  }

  lemma GivenNameText()
    ensures "out/voice" + "_part" + "012" + ".mp3" == "out/voice_part012.mp3"
  {
    assert "out/voice" + "_part" == "out/voice_part";
    assert "out/voice_part" + "012" == "out/voice_part012";
  }

  // ---------------------------------------------------------------- process_audio

  /** What `os.path.exists` and `wavfile.read` report for the input. */
  datatype Input = Missing | NotPcm | Read(sampleRate: int, wav: Pcm.Wav)

  /** Each of these exits; a zero-length part size divides by zero. */
  datatype PlanError = NotFound | Unreadable | ZeroPartSize

  datatype OutputPart = OutputPart(name: string, samples: seq<real>)

  /**
   * `process_audio` up to the samples each output file is made from: the input is
   * normalised before it is mixed to mono, then cut into parts.
   */
  function Plan(inputPath: string, outputPath: Option<string>, chunkMinutes: int, input: Input)
    : (r: Result<seq<OutputPart>, PlanError>)
    ensures input.Missing? ==> r == Failure(NotFound)
    ensures input.NotPcm? ==> r == Failure(Unreadable)
    ensures input.Read? && ChunkSamples(chunkMinutes, input.sampleRate) == 0 ==> r == Failure(ZeroPartSize)
    ensures r.Success? ==>
              input.Read? &&
              forall i :: 0 <= i < |r.value| ==> r.value[i].name == PartName(outputPath, inputPath, i)
    ensures r.Success? && ChunkSamples(chunkMinutes, input.sampleRate) > 0 ==>
              Blocks.Concat(Samples(r.value)) == Pcm.NormalizeThenMix(input.wav)
    ensures r.Success? && ChunkSamples(chunkMinutes, input.sampleRate) < 0 ==> r.value == []
  {
    match input
    case Missing => Failure(NotFound)
    case NotPcm => Failure(Unreadable)
    case Read(rate, wav) =>
      var data := Pcm.NormalizeThenMix(wav);
      var cs := ChunkSamples(chunkMinutes, rate);
      if cs == 0 then Failure(ZeroPartSize)
      else if cs < 0 then Success([])
      else
        var ps := Parts(data, cs);
        PartsPartition(data, cs);
        var out := seq(|ps|, i requires 0 <= i < |ps| => OutputPart(PartName(outputPath, inputPath, i), ps[i]));
        assert Samples(out) == ps;
        Success(out)
  }

  function Samples(parts: seq<OutputPart>): (r: seq<seq<real>>)
    ensures |r| == |parts|
    ensures forall i :: 0 <= i < |parts| ==> r[i] == parts[i].samples
  {
    seq(|parts|, i requires 0 <= i < |parts| => parts[i].samples)
  }

  /** Ten-minute parts at 48 kHz are 28 800 000 samples; 25 minutes of audio make three parts. */
  lemma PartExamples()
    ensures ChunkSamples(DefaultChunkMinutes, 48000) == 28800000
    ensures PartCount(25 * 60 * 48000, 28800000) == 3
  {
    assert (25 * 60 * 48000) as real / 28800000.0 == 2.5;
  }
}
