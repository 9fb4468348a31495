/**
 * The correction filter of the calibrator: the frequency grid handed to the designer
 * (`_design_fir_filter`) and streaming application of the taps with carried state (`apply`).
 *
 * The designer (`firwin2`) and `10 ** x` are parameters. The carried state is modelled as the
 * last `len(taps) - 1` inputs; from a zero start it produces the same outputs as the
 * direct-form state of `lfilter` with a zero `zi`, namely the causal convolution.
 */
module FirFilter {
  import opened Blocks

  /** `firwin2(n, freqs, gains)[k]`: coefficient `k` of an `n`-tap design over a grid. */
  type Designer = (nat, seq<real>, seq<real>, nat) -> real

  /** Normalised frequencies (1 = Nyquist) and linear gains, as the designer takes them. */
  datatype Grid = Grid(freqs: seq<real>, gains: seq<real>)

  /**
   * The grid for a measured response: the correction gain at each point is the inverse of
   * the measured one (-gain dB, then linear), the axis is divided by the Nyquist frequency,
   * and points at 0 and 1 are added that repeat the first and last gains.
   */
  function DesignGrid(freqsHz: seq<real>, gainsDb: seq<real>, sampleRate: real, exp10: real -> real): (g: Grid)
    requires |freqsHz| == |gainsDb| > 0
    requires sampleRate > 0.0
    ensures |g.freqs| == |g.gains| == |freqsHz| + 2
    ensures g.freqs[0] == 0.0 && g.freqs[|g.freqs| - 1] == 1.0
    ensures forall i :: 0 <= i < |freqsHz| ==> g.freqs[i + 1] == freqsHz[i] / (sampleRate / 2.0)
    ensures forall i :: 0 <= i < |gainsDb| ==> g.gains[i + 1] == exp10(-gainsDb[i] / 20.0)
    ensures g.gains[0] == g.gains[1] && g.gains[|g.gains| - 1] == g.gains[|g.gains| - 2]
  {
    var nyquist := sampleRate / 2.0;
    var normalized := seq(|freqsHz|, i requires 0 <= i < |freqsHz| => freqsHz[i] / nyquist);
    var linear := seq(|gainsDb|, i requires 0 <= i < |gainsDb| => exp10(-gainsDb[i] / 20.0));
    Grid([0.0] + normalized + [1.0], [linear[0]] + linear + [linear[|linear| - 1]])
  }

  predicate StrictlyIncreasing(xs: seq<real>) {
    forall i, j :: 0 <= i < j < |xs| ==> xs[i] < xs[j]
  }

  predicate NonDecreasing(xs: seq<real>) {
    forall i, j :: 0 <= i < j < |xs| ==> xs[i] <= xs[j]
  }

  /**
   * A table of increasing frequencies strictly inside (0, Nyquist) gives the designer what it
   * demands: an axis from 0 to 1 that never decreases.
   */
  lemma GridAxisIsValid(freqsHz: seq<real>, gainsDb: seq<real>, sampleRate: real, exp10: real -> real)
    requires |freqsHz| == |gainsDb| > 0 && sampleRate > 0.0
    requires StrictlyIncreasing(freqsHz)
    requires forall i :: 0 <= i < |freqsHz| ==> 0.0 < freqsHz[i] < sampleRate / 2.0
    ensures StrictlyIncreasing(DesignGrid(freqsHz, gainsDb, sampleRate, exp10).freqs)
    ensures forall i :: 0 <= i < |freqsHz| + 2 ==> 0.0 <= DesignGrid(freqsHz, gainsDb, sampleRate, exp10).freqs[i] <= 1.0
  {
    var g := DesignGrid(freqsHz, gainsDb, sampleRate, exp10);
    var ny := sampleRate / 2.0;
    var n := |freqsHz|;
    var a := g.freqs;
    assert |a| == n + 2 && a[0] == 0.0 && a[n + 1] == 1.0;
    forall i | 1 <= i <= n
      ensures 0.0 < a[i] < 1.0
    {
      assert a[i] == freqsHz[i - 1] / ny;
      DivideBelow(freqsHz[i - 1], ny);
    }
    forall i, j | 0 <= i < j < n + 2
      ensures a[i] < a[j]
    {
      if 0 < i && j < n + 1 {
        assert a[i] == freqsHz[i - 1] / ny && a[j] == freqsHz[j - 1] / ny;
        DivideMonotone(freqsHz[i - 1], freqsHz[j - 1], ny);
      }
    }
  }

  lemma DivideBelow(x: real, d: real)
    requires 0.0 < x < d
    ensures 0.0 < x / d < 1.0
  {
    assert x / d == x * (1.0 / d);
    assert 1.0 / d > 0.0;
    assert (d - x) * (1.0 / d) > 0.0;
    assert (d - x) * (1.0 / d) == 1.0 - x / d;
  }

  lemma DivideMonotone(x: real, y: real, d: real)
    requires x < y && d > 0.0
    ensures x / d < y / d
  {
  }

  /**
   * The correction is the inverse of the measured response: at every measured point the
   * correction gain times the microphone's linear gain is 1, given `10 ** a * 10 ** b == 1` whenever `a + b == 0`.
   */
  lemma CorrectionInvertsResponse(freqsHz: seq<real>, gainsDb: seq<real>, sampleRate: real,
                                  exp10: real -> real, i: nat)
    requires |freqsHz| == |gainsDb| > 0 && sampleRate > 0.0 && i < |gainsDb|
    requires forall a, b :: a + b == 0.0 ==> exp10(a) * exp10(b) == 1.0
    ensures DesignGrid(freqsHz, gainsDb, sampleRate, exp10).gains[i + 1] * exp10(gainsDb[i] / 20.0) == 1.0
  {
    var g := DesignGrid(freqsHz, gainsDb, sampleRate, exp10);
    InverseGain(gainsDb[i], g.gains[i + 1], exp10);
  }

  lemma InverseGain(gainDb: real, correction: real, exp10: real -> real)
    requires correction == exp10(-gainDb / 20.0)
    requires forall a, b :: a + b == 0.0 ==> exp10(a) * exp10(b) == 1.0
    ensures correction * exp10(gainDb / 20.0) == 1.0
  {
    var a, b := -gainDb / 20.0, gainDb / 20.0;
    assert a + b == 0.0;
  }

  /** `firwin2(num_taps - 1, ...)`: the designer is asked for one coefficient fewer than `num_taps`. */
  function Design(numTaps: int, grid: Grid, firwin2: Designer): (taps: seq<real>)
    requires numTaps >= 1
    ensures |taps| == numTaps - 1
    ensures forall k :: 0 <= k < |taps| ==> taps[k] == firwin2(numTaps - 1, grid.freqs, grid.gains, k)
  {
    seq(numTaps - 1, k requires 0 <= k < numTaps - 1 => firwin2(numTaps - 1, grid.freqs, grid.gains, k))
  }

  /** `_design_fir_filter`. */
  function DesignFilter(freqsHz: seq<real>, gainsDb: seq<real>, sampleRate: real, numTaps: int,
                        exp10: real -> real, firwin2: Designer): (taps: seq<real>)
    requires |freqsHz| == |gainsDb| > 0 && sampleRate > 0.0 && numTaps >= 1
    ensures |taps| == numTaps - 1
  {
    Design(numTaps, DesignGrid(freqsHz, gainsDb, sampleRate, exp10), firwin2)
  }

  // ---------------------------------------------------------------- streaming application

  /** The taps and the inputs the next chunk's first outputs still depend on. */
  datatype FilterState = FilterState(taps: seq<real>, history: seq<real>)

  predicate Valid(st: FilterState) {
    |st.taps| >= 1 && |st.history| == |st.taps| - 1
  }

  function Zeros(n: nat): (z: seq<real>)
    ensures |z| == n && forall i :: 0 <= i < n ==> z[i] == 0.0
  {
    seq(n, _ => 0.0)
  }

  /** The state after construction: `np.zeros(len(taps) - 1)`. */
  function Initial(taps: seq<real>): (st: FilterState)
    requires |taps| >= 1
    ensures Valid(st) && st.taps == taps
    ensures forall i :: 0 <= i < |st.history| ==> st.history[i] == 0.0
  {
    FilterState(taps, Zeros(|taps| - 1))
  }

  /** `Σ_{k < K} b[k] · e[top - k]`. */
  function DotAt(b: seq<real>, e: seq<real>, top: nat, K: nat): real
    requires K <= |b| && top < |e| && K <= top + 1
  {
    if K == 0 then 0.0 else DotAt(b, e, top, K - 1) + b[K - 1] * e[top - (K - 1)]
  }

  /** Output `n` of a chunk whose inputs follow the history in `e`. */
  function OutputAt(b: seq<real>, e: seq<real>, n: nat): real
    requires |b| >= 1 && n + |b| - 1 < |e|
  {
    DotAt(b, e, n + |b| - 1, |b|)
  }

  /** `lfilter(taps, 1.0, chunk, zi=state)`: the filtered chunk and the next state. */
  function Apply(st: FilterState, x: seq<real>): (r: (FilterState, seq<real>))
    requires Valid(st)
    ensures Valid(r.0) && r.0.taps == st.taps && |r.1| == |x|
    ensures r.0.history == (st.history + x)[|x|..]
  {
    var e := st.history + x;
    (FilterState(st.taps, e[|x|..]), seq(|x|, n requires 0 <= n < |x| => OutputAt(st.taps, e, n)))
  }

  /** Two dot products agree when they read equal values, `e2` shifted by `off` from `e1`. */
  lemma {:induction false} DotAtCongruent(b: seq<real>, e1: seq<real>, t1: nat, e2: seq<real>, off: int, K: nat)
    requires K <= |b| && t1 < |e1| && K <= t1 + 1
    requires 0 <= t1 + off < |e2| && K <= t1 + off + 1
    requires forall j :: t1 + 1 - K <= j <= t1 ==> e1[j] == e2[j + off]
    ensures DotAt(b, e1, t1, K) == DotAt(b, e2, t1 + off, K)
  {
    if K > 0 {
      DotAtCongruent(b, e1, t1, e2, off, K - 1);
      assert e1[t1 - (K - 1)] == e2[t1 - (K - 1) + off];
    }
  }

  /** The first outputs of `a + c` depend only on the history and `a`. */
  lemma OutputsOfFirst(st: FilterState, a: seq<real>, c: seq<real>)
    requires Valid(st)
    ensures Apply(st, a + c).1[..|a|] == Apply(st, a).1
  {
    var b, m := st.taps, |st.taps| - 1;
    var e1, e := st.history + a, st.history + (a + c);
    var y1, y := Apply(st, a).1, Apply(st, a + c).1;
    forall n | 0 <= n < |a|
      ensures y[n] == y1[n]
    {
      assert forall j :: n + m + 1 - |b| <= j <= n + m ==> e[j] == e1[j];
      DotAtCongruent(b, e, n + m, e1, 0, |b|);
    }
  }

  /** The later outputs of `a + c` are those of `c` after the state `a` leaves. */
  lemma OutputsOfSecond(st: FilterState, a: seq<real>, c: seq<real>)
    requires Valid(st)
    ensures Apply(st, a + c).1[|a|..] == Apply(Apply(st, a).0, c).1
  {
    var b, m := st.taps, |st.taps| - 1;
    var mid := Apply(st, a).0;
    var e1, e2, e := st.history + a, mid.history + c, st.history + (a + c);
    var y2, y := Apply(mid, c).1, Apply(st, a + c).1;
    forall n | 0 <= n < |c|
      ensures y[|a| + n] == y2[n]
    {
      forall j | |a| + n + m + 1 - |b| <= j <= |a| + n + m
        ensures e[j] == e2[j - |a|]
      {
        if j - |a| < m {
          assert e2[j - |a|] == e1[j];
        } else {
          assert e2[j - |a|] == c[j - |a| - m];
        }
      }
      DotAtCongruent(b, e, |a| + n + m, e2, -|a|, |b|);
    }
  }

  /** Filtering `a` then `c` with the carried state is filtering `a + c` in one call. */
  lemma ApplyChunks(st: FilterState, a: seq<real>, c: seq<real>)
    requires Valid(st)
    ensures Apply(Apply(st, a).0, c).0 == Apply(st, a + c).0
    ensures Apply(st, a).1 + Apply(Apply(st, a).0, c).1 == Apply(st, a + c).1
  {
    OutputsOfFirst(st, a, c);
    OutputsOfSecond(st, a, c);
    var y := Apply(st, a + c).1;
    assert y == y[..|a|] + y[|a|..];
    var mid := Apply(st, a).0;
    var e := st.history + (a + c);
    assert (mid.history + c)[|c|..] == e[|a| + |c|..];
  }

  // ---------------------------------------------------------------- whole-signal reference

  /** The input signal with zeros before its start. */
  function Signal(x: seq<real>, i: int): real {
    if 0 <= i < |x| then x[i] else 0.0
  }

  /** `Σ_{k < K} b[k] · x[n - k]`, samples before the start being 0. */
  function ConvUpTo(b: seq<real>, x: seq<real>, n: int, K: nat): real
    requires K <= |b|
  {
    if K == 0 then 0.0 else ConvUpTo(b, x, n, K - 1) + b[K - 1] * Signal(x, n - (K - 1))
  }

  /** Output `n` of the causal FIR filter `y[n] = Σ b[k] · x[n - k]` on the whole signal. */
  function Convolution(b: seq<real>, x: seq<real>, n: int): real {
    ConvUpTo(b, x, n, |b|)
  }

  lemma {:induction false} DotAtFromRest(b: seq<real>, x: seq<real>, n: nat, K: nat)
    requires 1 <= |b| && K <= |b| && n < |x|
    ensures DotAt(b, Zeros(|b| - 1) + x, n + |b| - 1, K) == ConvUpTo(b, x, n, K)
  {
    if K > 0 {
      DotAtFromRest(b, x, n, K - 1);
      var e, m := Zeros(|b| - 1) + x, |b| - 1;
      var j := n + m - (K - 1);
      if j < m {
        assert e[j] == 0.0;
      } else {
        assert e[j] == x[j - m];
      }
    }
  }

  /** From the initial state, a chunk is filtered exactly as the convolution of that chunk. */
  lemma ApplyFromRest(taps: seq<real>, x: seq<real>)
    requires |taps| >= 1
    ensures forall n :: 0 <= n < |x| ==> Apply(Initial(taps), x).1[n] == Convolution(taps, x, n)
  {
    forall n | 0 <= n < |x|
      ensures Apply(Initial(taps), x).1[n] == Convolution(taps, x, n)
    {
      DotAtFromRest(taps, x, n, |taps|);
    }
  }

  /** The calibrator applied to successive chunks: the final state and all outputs. */
  function Stream(st: FilterState, chunks: seq<seq<real>>): (r: (FilterState, seq<real>))
    requires Valid(st)
    ensures Valid(r.0) && r.0.taps == st.taps
    decreases |chunks|
  {
    if chunks == [] then (st, [])
    else
      var first := Apply(st, chunks[0]);
      var rest := Stream(first.0, chunks[1..]);
      (rest.0, first.1 + rest.1)
  }

  /** Streaming chunk by chunk is one application to the concatenation. */
  lemma {:induction false} StreamIsOneApply(st: FilterState, chunks: seq<seq<real>>)
    requires Valid(st)
    ensures Stream(st, chunks) == Apply(st, Concat(chunks))
    decreases |chunks|
  {
    if chunks == [] {
      assert st.history + [] == st.history;
      assert (st.history + [])[0..] == st.history;
    } else {
      var mid := Apply(st, chunks[0]).0;
      StreamIsOneApply(mid, chunks[1..]);
      ApplyChunks(st, chunks[0], Concat(chunks[1..]));
    }
  }

  /**
   * However a signal is cut into chunks, streaming it through a freshly built filter yields
   * the convolution of the taps with the whole signal.
   */
  lemma StreamedOutputIsConvolution(taps: seq<real>, chunks: seq<seq<real>>)
    requires |taps| >= 1
    ensures |Stream(Initial(taps), chunks).1| == |Concat(chunks)|
    ensures forall n :: 0 <= n < |Concat(chunks)| ==>
      Stream(Initial(taps), chunks).1[n] == Convolution(taps, Concat(chunks), n)
  {
    StreamIsOneApply(Initial(taps), chunks);
    ApplyFromRest(taps, Concat(chunks));
  }
}
