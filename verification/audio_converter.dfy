/**
 * The client's sample-rate reducer and 16-bit encoder (`downsampleBuffer`,
 * `convertFloat32ToInt16`). Samples are reals; Float32 storage rounding and NaN are not
 * modelled. `Math.round(x)` is `Floor(x + 1/2)`; a store into an `Int16Array` truncates
 * toward zero and wraps modulo 2^16.
 */
module AudioConverter {
  import opened Wrappers

  newtype int16 = x: int | -0x8000 <= x < 0x8000

  /** JavaScript `Math.round`: halves round up. */
  function Round(x: real): int {
    (x + 0.5).Floor
  }

  function Min(a: int, b: int): int {
    if a <= b then a else b
  }

  /** The rate ratio `sampleRate / outSampleRate`. */
  function Ratio(sampleRate: int, outSampleRate: int): real
    requires outSampleRate > 0
  {
    sampleRate as real / outSampleRate as real
  }

  /** `Math.round(buffer.length / sampleRateRatio)`. */
  function OutLength(len: nat, ratio: real): int
    requires ratio > 0.0
  {
    Round(len as real / ratio)
  }

  /** Index of the first input sample of output window `k`: `Math.round(k * ratio)`. */
  function WindowStart(k: nat, ratio: real): int {
    Round(k as real * ratio)
  }

  /** The input samples `i` with `start <= i < end` and `i < |s|`, as the inner loop visits them. */
  function Window(s: seq<real>, start: int, end: int): seq<real> {
    var hi := Min(end, |s|);
    if 0 <= start < hi then s[start..hi] else []
  }

  function Sum(s: seq<real>): real
    decreases |s|
  {
    if s == [] then 0.0 else Sum(s[..|s| - 1]) + s[|s| - 1]
  }

  /** The average of a window; an empty window cannot occur (see WindowNonEmpty). */
  function Mean(w: seq<real>): real {
    if w == [] then 0.0 else Sum(w) / |w| as real
  }

  lemma RoundNonNegative(x: real)
    requires x >= 0.0
    ensures Round(x) >= 0
  {
  }

  /** A lower output rate gives a ratio above one. */
  lemma RatioAboveOne(sampleRate: int, outSampleRate: int)
    requires 0 < outSampleRate < sampleRate
    ensures Ratio(sampleRate, outSampleRate) > 1.0
  {
    var r := Ratio(sampleRate, outSampleRate);
    assert r * outSampleRate as real == sampleRate as real;
    if r <= 1.0 {
      MulMono(r, 1.0, outSampleRate as real);
    }
  }

  /** Output sample `k`: the mean of the input window `[round(k*r), round((k+1)*r))`. */
  function DownsampledAt(s: seq<real>, ratio: real, k: nat): real
    requires ratio > 0.0
  {
    Mean(Window(s, WindowStart(k, ratio), WindowStart(k + 1, ratio)))
  }

  /** The whole output of `downsampleBuffer` when the output rate is lower. */
  function Downsampled(s: seq<real>, ratio: real): (r: seq<real>)
    requires ratio > 1.0
  {
    var n := OutLength(|s|, ratio);
    seq(n, k requires 0 <= k < n => DownsampledAt(s, ratio, k))
  }

  /** `x <= y` survives multiplication by a positive factor. */
  lemma MulMono(x: real, y: real, r: real)
    requires x <= y && r > 0.0
    ensures x * r <= y * r
  {
  }

  /**
   * For a ratio above one, every output window is non-empty and lies inside the input:
   * the division by `count` never divides by zero.
   */
  lemma WindowNonEmpty(len: nat, ratio: real, k: nat)
    requires ratio > 1.0
    requires k < OutLength(len, ratio)
    ensures 0 <= WindowStart(k, ratio) < WindowStart(k + 1, ratio)
    ensures WindowStart(k, ratio) < len
  {
    var x := k as real * ratio;
    RoundNonNegative(x);
    assert (k + 1) as real * ratio == x + ratio;
    var q := len as real / ratio;
    assert q * ratio == len as real;
    assert k as real + 1.0 <= q + 0.5;
    MulMono(k as real, q - 0.5, ratio);
    assert x <= len as real - 0.5 * ratio;
  }

  function Concat(ws: seq<seq<real>>): seq<real>
    decreases |ws|
  {
    if ws == [] then [] else Concat(ws[..|ws| - 1]) + ws[|ws| - 1]
  }

  /** The first `m` windows of the input, in order. */
  function Windows(s: seq<real>, ratio: real, m: nat): (ws: seq<seq<real>>)
    requires ratio > 0.0
    ensures |ws| == m
    decreases m
  {
    if m == 0 then []
    else Windows(s, ratio, m - 1) + [Window(s, WindowStart(m - 1, ratio), WindowStart(m, ratio))]
  }

  lemma StartMonotone(ratio: real, k: nat)
    requires ratio > 0.0
    ensures WindowStart(k, ratio) <= WindowStart(k + 1, ratio)
  {
    assert (k + 1) as real * ratio == k as real * ratio + ratio;
  }

  /**
   * Laid end to end, the first `m` windows are exactly the input up to the start of window
   * `m`: the windows start at index 0, follow one another without overlap, and no sample is
   * skipped in between.
   */
  lemma {:induction false} WindowsTilePrefix(s: seq<real>, ratio: real, m: nat)
    requires ratio > 0.0
    ensures Concat(Windows(s, ratio, m)) == s[..Min(WindowStart(m, ratio), |s|)]
  {
    if m > 0 {
      var a := WindowStart(m - 1, ratio);
      var b := WindowStart(m, ratio);
      assert 0 <= a <= b by {
        RoundNonNegative((m - 1) as real * ratio);
        StartMonotone(ratio, m - 1);
      }
      WindowsTilePrefix(s, ratio, m - 1);
      var ws := Windows(s, ratio, m);
      assert ws[..m - 1] == Windows(s, ratio, m - 1);
      assert Concat(ws) == Concat(Windows(s, ratio, m - 1)) + Window(s, a, b);
      PrefixThenWindow(s, a, b);
    } else {
      assert WindowStart(0, ratio) == 0;
    }
  }

  /** The prefix up to `a` followed by the window `[a, b)` is the prefix up to `b`. */
  lemma PrefixThenWindow(s: seq<real>, a: int, b: int)
    requires 0 <= a <= b
    ensures s[..Min(a, |s|)] + Window(s, a, b) == s[..Min(b, |s|)]
  {
    if a < Min(b, |s|) {
      assert s[..a] + s[a..Min(b, |s|)] == s[..Min(b, |s|)];
    }
  }

  lemma {:induction false} SumBounds(s: seq<real>, lo: real, hi: real)
    requires forall i :: 0 <= i < |s| ==> lo <= s[i] <= hi
    ensures |s| as real * lo <= Sum(s) <= |s| as real * hi
    decreases |s|
  {
    if s != [] {
      var init := s[..|s| - 1];
      forall i | 0 <= i < |init| ensures lo <= init[i] <= hi {
        assert init[i] == s[i];
      }
      SumBounds(init, lo, hi);
      var n := |init| as real;
      assert Sum(s) == Sum(init) + s[|s| - 1];
      assert |s| as real * lo == n * lo + lo;
      assert |s| as real * hi == n * hi + hi;
    }
  }

  lemma DivBounds(a: real, n: real, lo: real, hi: real)
    requires n > 0.0 && n * lo <= a <= n * hi
    ensures lo <= a / n <= hi
  {
    var m := a / n;
    assert m * n == a;
    if m < lo {
      MulMono(m, lo, n);
    }
    if m > hi {
      MulMono(hi, m, n);
    }
  }

  /** The mean of a non-empty window lies within the bounds of its samples. */
  lemma MeanInRange(w: seq<real>, lo: real, hi: real)
    requires w != []
    requires forall i :: 0 <= i < |w| ==> lo <= w[i] <= hi
    ensures lo <= Mean(w) <= hi
  {
    SumBounds(w, lo, hi);
    DivBounds(Sum(w), |w| as real, lo, hi);
  }

  /** Averaging keeps every output sample within the bounds of the input samples. */
  lemma DownsampledInRange(s: seq<real>, ratio: real, lo: real, hi: real)
    requires ratio > 1.0
    requires forall i :: 0 <= i < |s| ==> lo <= s[i] <= hi
    ensures forall k :: 0 <= k < |Downsampled(s, ratio)| ==> lo <= Downsampled(s, ratio)[k] <= hi
  {
    forall k | 0 <= k < |Downsampled(s, ratio)|
      ensures lo <= Downsampled(s, ratio)[k] <= hi
    {
      WindowNonEmpty(|s|, ratio, k);
      var w := Window(s, WindowStart(k, ratio), WindowStart(k + 1, ratio));
      MeanInRange(w, lo, hi);
    }
  }

  /** The inner `for` loop: the sum and the number of the samples of one window. */
  method SumWindow(buffer: array<real>, from: int, to: int) returns (accum: real, count: int)
    requires 0 <= from < Min(to, buffer.Length)
    ensures accum == Sum(Window(buffer[..], from, to))
    ensures count == |Window(buffer[..], from, to)| > 0
  {
    accum, count := 0.0, 0;
    var i := from;
    while i < to && i < buffer.Length
      invariant from <= i <= Min(to, buffer.Length)
      invariant accum == Sum(buffer[from..i])
      invariant count == i - from
    {
      assert buffer[from..i + 1][..i - from] == buffer[from..i];
      accum := accum + buffer[i];
      count := count + 1;
      i := i + 1;
    }
    assert buffer[from..i] == Window(buffer[..], from, to);
  }

  /**
   * `downsampleBuffer`: the input itself for equal rates, an error for a higher output rate,
   * otherwise a new array of box-filtered samples.
   */
  method DownsampleBuffer(buffer: array<real>, sampleRate: int, outSampleRate: int)
    returns (r: Result<array<real>, string>)
    requires sampleRate > 0 && outSampleRate > 0
    ensures outSampleRate == sampleRate ==> r == Ok(buffer)
    ensures outSampleRate > sampleRate ==> r.Err?
    ensures outSampleRate < sampleRate ==>
      r.Ok? && fresh(r.value) && r.value[..] == Downsampled(buffer[..], Ratio(sampleRate, outSampleRate))
  {
    if outSampleRate == sampleRate {
      return Ok(buffer);
    }
    if outSampleRate > sampleRate {
      return Err("downsampling rate show be smaller than original sample rate");
    }
    var ratio := Ratio(sampleRate, outSampleRate);
    RatioAboveOne(sampleRate, outSampleRate);
    var newLength := OutLength(buffer.Length, ratio);
    RoundNonNegative(buffer.Length as real / ratio);
    var result := new real[newLength];
    var offsetResult := 0;
    var offsetBuffer := 0;
    while offsetResult < result.Length
      invariant 0 <= offsetResult <= result.Length
      invariant offsetBuffer == WindowStart(offsetResult, ratio)
      invariant forall k :: 0 <= k < offsetResult ==> result[k] == DownsampledAt(buffer[..], ratio, k)
    {
      WindowNonEmpty(buffer.Length, ratio, offsetResult);
      var nextOffsetBuffer := WindowStart(offsetResult + 1, ratio);
      var accum, count := SumWindow(buffer, offsetBuffer, nextOffsetBuffer);
      result[offsetResult] := accum / count as real;
      assert result[offsetResult] == DownsampledAt(buffer[..], ratio, offsetResult);
      offsetResult := offsetResult + 1;
      offsetBuffer := nextOffsetBuffer;
    }
    assert result[..] == Downsampled(buffer[..], ratio);
    return Ok(result);
  }

  /** Truncation toward zero, as the `Int16Array` store performs it. */
  function TruncToZero(x: real): (n: int)
    ensures x >= 0.0 ==> 0.0 <= n as real <= x < n as real + 1.0
    ensures x < 0.0 ==> n as real - 1.0 < x <= n as real <= 0.0
  {
    if x >= 0.0 then x.Floor else -((-x).Floor)
  }

  /** The `Int16Array` store of an integer: reduction modulo 2^16 into the signed range. */
  function WrapInt16(n: int): (v: int16)
    ensures (v as int - n) % 0x1_0000 == 0
    ensures -0x8000 <= n < 0x8000 ==> v as int == n
  {
    var m := n % 0x1_0000;
    if m >= 0x8000 then (m - 0x1_0000) as int16 else m as int16
  }

  function MinReal(a: real, b: real): real {
    if a <= b then a else b
  }

  /** One encoded sample as written: `Math.min(1, x) * 0x7FFF`, stored into an `Int16Array`. */
  function Int16Sample(x: real): int16 {
    WrapInt16(TruncToZero(MinReal(1.0, x) * 32767.0))
  }

  /** Samples at or above 1.0 give 32767, 0.0 gives 0, -1.0 gives -32767. */
  lemma Int16SampleBoundaries(x: real)
    ensures x >= 1.0 ==> Int16Sample(x) == 32767
    ensures Int16Sample(0.0) == 0
    ensures Int16Sample(-1.0) == -32767
  {
  }

  /** Within [-1, 1] the encoding is the scaled sample truncated toward zero, with no wrap-around. */
  lemma Int16SampleInUnitRange(x: real)
    requires -1.0 <= x <= 1.0
    ensures Int16Sample(x) as int == TruncToZero(x * 32767.0)
    ensures -32767 <= Int16Sample(x) as int <= 32767
  {
    var n := TruncToZero(x * 32767.0);
    assert -32767.0 <= x * 32767.0 <= 32767.0;
    assert -32767 <= n <= 32767;
  }

  /**
   * There is no lower clamp: -2.0 encodes as +2 and -1.5 as +16386, positive values far from
   * the intended -32767.
   */
  lemma Int16SampleWrapsBelowMinusOne()
    ensures Int16Sample(-2.0) == 2
    ensures Int16Sample(-1.5) == 16386
  {
    assert TruncToZero(-2.0 * 32767.0) == -65534;
    assert TruncToZero(-1.5 * 32767.0) == -49150;
  }

  /** The encoding the comment's range and the two-sided clamp evidently intend. */
  function ClampedInt16Sample(x: real): int16 {
    var c := if x < -1.0 then -1.0 else MinReal(1.0, x);
    WrapInt16(TruncToZero(c * 32767.0))
  }

  /**
   * The clamped encoding stays in [-32767, 32767], keeps the sign of the sample, never
   * decreases as the sample grows, and agrees with the code as written from -1.0 upwards.
   */
  lemma ClampedInt16SampleSound(x: real, y: real)
    requires x <= y
    ensures -32767 <= ClampedInt16Sample(x) as int <= 32767
    ensures x < 0.0 ==> ClampedInt16Sample(x) <= 0
    ensures x >= 0.0 ==> ClampedInt16Sample(x) >= 0
    ensures ClampedInt16Sample(x) <= ClampedInt16Sample(y)
    ensures x >= -1.0 ==> ClampedInt16Sample(x) == Int16Sample(x)
  {
    var cx := if x < -1.0 then -1.0 else MinReal(1.0, x);
    var cy := if y < -1.0 then -1.0 else MinReal(1.0, y);
    Int16SampleInUnitRange(cx);
    Int16SampleInUnitRange(cy);
    MulMono(cx, cy, 32767.0);
    assert TruncToZero(cx * 32767.0) <= TruncToZero(cy * 32767.0);
  }

  /** `convertFloat32ToInt16`: one 16-bit value per sample, at the same index, filled from the end. */
  method ConvertFloat32ToInt16(buffer: array<real>) returns (buf: array<int16>)
    ensures fresh(buf)
    ensures buf.Length == buffer.Length
    ensures forall i :: 0 <= i < buf.Length ==> buf[i] == Int16Sample(buffer[i])
  {
    var l := buffer.Length;
    buf := new int16[l];
    while l > 0
      invariant 0 <= l <= buffer.Length
      invariant forall i :: l <= i < buf.Length ==> buf[i] == Int16Sample(buffer[i])
    {
      l := l - 1;
      buf[l] := Int16Sample(buffer[l]);
    }
  }
}
