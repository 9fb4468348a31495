/**
 * The buffer-length rule shared by both argument validators: a request below the
 * minimum becomes the minimum; otherwise one that is not a whole multiple of the LUFS
 * window is raised to the next multiple (`math.ceil(b / w) * w`).
 */
module BufferRounding {
  import Numeric

  function RoundBuffer(b: real, minimum: real, window: real): (r: real)
    requires window > 0.0
    ensures b < minimum ==> r == minimum
    ensures b >= minimum ==> Numeric.IsMultiple(r, window) && b <= r < b + window
    ensures b >= minimum && Numeric.IsMultiple(b, window) ==> r == b
    ensures r >= minimum
  {
    if b < minimum then minimum
    else if !Numeric.IsMultiple(b, window) then
      CeilMultiple(b, window)
    else b
  }

  /** `math.ceil(b / w) * w`: the least multiple of `w` not below `b`. */
  function CeilMultiple(b: real, window: real): (r: real)
    requires window > 0.0
    ensures Numeric.IsMultiple(r, window) && b <= r < b + window
  {
    var c := Numeric.Ceil(b / window);
    CeilMultipleBounds(b, window, c);
    assert c as real * window / window == c as real;
    c as real * window
  }

  lemma CeilMultipleBounds(b: real, window: real, c: int)
    requires window > 0.0 && b / window <= c as real < b / window + 1.0
    ensures b <= (c as real) * window
    ensures (c as real) * window < b + window
  {
    var q := b / window;
    assert q * window == b;
    MulMono(q, c as real, window);
    assert q * window <= c as real * window;
    assert b <= (c as real) * window;
    CeilUpper(b, window, c);
  }

  lemma CeilUpper(b: real, window: real, c: int)
    requires window > 0.0 && c as real < b / window + 1.0
    ensures c as real * window < b + window
  {
    MulStrict(c as real, b / window + 1.0, window);
    assert (b / window + 1.0) * window == b / window * window + 1.0 * window;
    assert b / window * window == b;
  }

  lemma MulMono(x: real, y: real, w: real)
    requires x <= y && w > 0.0
    ensures x * w <= y * w
  {
  }

  lemma MulStrict(x: real, y: real, w: real)
    requires x < y && w > 0.0
    ensures x * w < y * w
  {
  }

  /** Rounding twice is rounding once, when the minimum is itself a multiple of the window. */
  lemma RoundBufferIdempotent(b: real, minimum: real, window: real)
    requires window > 0.0 && Numeric.IsMultiple(minimum, window)
    ensures RoundBuffer(RoundBuffer(b, minimum, window), minimum, window) == RoundBuffer(b, minimum, window)
  {
  }

  /** With a 3 s minimum and a 3 s window: 1 s becomes 3 s and 4 s becomes 6 s. */
  lemma RoundingExamples()
    ensures RoundBuffer(1.0, 3.0, 3.0) == 3.0
    ensures RoundBuffer(4.0, 3.0, 3.0) == 6.0
    ensures RoundBuffer(6.0, 3.0, 3.0) == 6.0
  {
    assert !Numeric.IsMultiple(4.0, 3.0) by {
      assert (4.0 / 3.0).Floor == 1;
    }
    assert Numeric.Ceil(4.0 / 3.0) == 2;
    assert Numeric.IsMultiple(6.0, 3.0) by {
      assert 6.0 / 3.0 == 2.0;
    }
  }
}
