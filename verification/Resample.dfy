/** Downmixing interleaved audio to mono and resampling it by linear interpolation. Samples are reals. */
module Resample {
  type Signal = seq<real>

  function Sum(s: Signal): real {
    if s == [] then 0.0 else Sum(s[..|s| - 1]) + s[|s| - 1]
  }

  function Mean(frame: Signal): real
    requires frame != []
  {
    Sum(frame) / (|frame| as real)
  }

  /** Frames of `channels` samples, the last possibly shorter, each averaged; mono input is returned as it is. */
  function Frames(s: Signal, channels: nat): Signal
    requires channels >= 1
  {
    if s == [] then []
    else if |s| <= channels then [Mean(s)]
    else [Mean(s[..channels])] + Frames(s[channels..], channels)
  }

  function Downmix(s: Signal, channels: nat): Signal {
    if channels <= 1 then s else Frames(s, channels)
  }

  /** `f64::round` of a non-negative number. */
  function Round(x: real): int { (x + 0.5).Floor }

  function OutLength(n: nat, fromHz: nat, toHz: nat): (k: nat)
    requires fromHz > 0
    ensures k >= 1
  {
    var k := Round(n as real * (toHz as real / fromHz as real));
    if k < 1 then 1 else k
  }

  /** The signal read at a fractional position; past the last sample it stays constant. */
  function Interpolate(s: Signal, x: real): real
    requires x >= 0.0
  {
    var i := x.Floor;
    var a := if i < |s| then s[i] else 0.0;
    var b := if i + 1 < |s| then s[i + 1] else a;
    a + (b - a) * (x - i as real)
  }

  function Position(i: nat, fromHz: nat, toHz: nat): (x: real)
    requires fromHz > 0 && toHz > 0
    ensures x >= 0.0
  {
    PositionSign(i, fromHz, toHz);
    i as real / (toHz as real / fromHz as real)
  }

  lemma PositionSign(i: nat, fromHz: nat, toHz: nat)
    requires fromHz > 0 && toHz > 0
    ensures toHz as real / fromHz as real > 0.0 && i as real / (toHz as real / fromHz as real) >= 0.0
  {
    QuotientPositive(toHz as real, fromHz as real);
    QuotientNonNegative(i as real, toHz as real / fromHz as real);
  }

  lemma QuotientPositive(a: real, b: real)
    requires a > 0.0 && b > 0.0
    ensures a / b > 0.0
  {
    assert a / b * b == a;
  }

  lemma QuotientNonNegative(a: real, b: real)
    requires a >= 0.0 && b > 0.0
    ensures a / b >= 0.0
  {
    assert a / b * b == a;
  }

  function Resampled(mono: Signal, fromHz: nat, toHz: nat): (r: Signal)
  {
    if mono == [] || fromHz == 0 || toHz == 0 || fromHz == toHz then mono
    else seq(OutLength(|mono|, fromHz, toHz), i requires 0 <= i => Interpolate(mono, Position(i, fromHz, toHz)))
  }

  method ResampleLinear(mono: Signal, fromHz: nat, toHz: nat) returns (out: Signal)
    ensures out == Resampled(mono, fromHz, toHz)
  {
    if mono == [] || fromHz == 0 || toHz == 0 || fromHz == toHz {
      return mono;
    }
    hide OutLength, Position;
    var outLen := OutLength(|mono|, fromHz, toHz);
    out := [];
    for i := 0 to outLen
      invariant |out| == i
      invariant forall k :: 0 <= k < i ==> out[k] == Interpolate(mono, Position(k, fromHz, toHz))
    {
      var src := Position(i, fromHz, toHz);
      var idx := src.Floor;
      var frac := src - idx as real;
      var a := if idx < |mono| then mono[idx] else 0.0;
      var b := if idx + 1 < |mono| then mono[idx + 1] else a;
      out := out + [a + (b - a) * frac];
    }
  }

  // ---------- Positions ----------

  lemma {:induction false} ProductBound(x: real, n: real, ratio: real)
    requires ratio > 0.0 && x * ratio < n * ratio
    ensures x < n
  {
    assert (n - x) * ratio > 0.0;
  }

  /** No output sample is read at or past the end of the input. */
  lemma {:induction false} PositionInside(n: nat, fromHz: nat, toHz: nat, i: nat)
    requires n > 0 && fromHz > 0 && toHz > 0 && i < OutLength(n, fromHz, toHz)
    ensures Position(i, fromHz, toHz) < n as real
    ensures 0 <= Position(i, fromHz, toHz).Floor < n
  {
    PositionSign(i, fromHz, toHz);
    var ratio := toHz as real / fromHz as real;
    var x := Position(i, fromHz, toHz);
    assert x * ratio == i as real;
    ProductPositive(n as real, ratio);
    assert i as real <= 0.0 || i as real <= n as real * ratio - 0.5;
    ProductBound(x, n as real, ratio);
  }

  lemma ProductPositive(a: real, b: real)
    requires a > 0.0 && b > 0.0
    ensures a * b > 0.0
  {
  }

  lemma {:induction false} PositionGrows(i: nat, j: nat, fromHz: nat, toHz: nat)
    requires fromHz > 0 && toHz > 0 && i <= j
    ensures Position(i, fromHz, toHz) <= Position(j, fromHz, toHz)
  {
    PositionSign(i, fromHz, toHz);
    var ratio := toHz as real / fromHz as real;
    var x, y := i as real / ratio, j as real / ratio;
    assert x * ratio == i as real && y * ratio == j as real;
    ProductOrder(x, y, ratio);
  }

  lemma ProductOrder(x: real, y: real, ratio: real)
    requires ratio > 0.0 && x * ratio <= y * ratio
    ensures x <= y
  {
    assert (y - x) * ratio >= 0.0;
  }

  // ---------- Bounds ----------

  ghost predicate Within(s: Signal, lo: real, hi: real) {
    forall i :: 0 <= i < |s| ==> lo <= s[i] <= hi
  }

  /** A point between two values lies between any bounds on them. */
  lemma {:induction false} Between(a: real, b: real, f: real, lo: real, hi: real)
    requires 0.0 <= f <= 1.0 && lo <= a <= hi && lo <= b <= hi
    ensures lo <= a + (b - a) * f <= hi
  {
    if a <= b {
      Fraction(a, b, f);
    } else {
      Fraction(b, a, f);
      assert (b - a) * f == -((a - b) * f);
    }
  }

  lemma Fraction(a: real, b: real, f: real)
    requires a <= b && 0.0 <= f <= 1.0
    ensures 0.0 <= (b - a) * f <= b - a
  {
    Scaled(f, 1.0, b - a);
    assert f * (b - a) == (b - a) * f;
  }

  lemma Scaled(a: real, b: real, f: real)
    requires a <= b && f >= 0.0
    ensures a * f <= b * f
  {
  }

  lemma {:induction false} InterpolateWithin(s: Signal, x: real, lo: real, hi: real)
    requires Within(s, lo, hi) && 0.0 <= x < |s| as real
    ensures lo <= Interpolate(s, x) <= hi
  {
    var i := x.Floor;
    var a := s[i];
    var b := if i + 1 < |s| then s[i + 1] else a;
    Between(a, b, x - i as real, lo, hi);
  }

  lemma {:induction false} SumWithin(s: Signal, lo: real, hi: real)
    requires Within(s, lo, hi)
    ensures lo * |s| as real <= Sum(s) <= hi * |s| as real
  {
    if s != [] {
      var n := |s| - 1;
      SumWithin(s[..n], lo, hi);
      assert lo * |s| as real == lo * n as real + lo && hi * |s| as real == hi * n as real + hi;
    }
  }

  lemma {:induction false} MeanWithin(s: Signal, lo: real, hi: real)
    requires s != [] && Within(s, lo, hi)
    ensures lo <= Mean(s) <= hi
  {
    SumWithin(s, lo, hi);
    var n := |s| as real;
    var m := Mean(s);
    assert m * n == Sum(s);
    if m < lo { Above(m, lo, n); }
    if m > hi { Above(hi, m, n); }
  }

  lemma Above(a: real, b: real, n: real)
    requires a < b && n > 0.0
    ensures a * n < b * n
  {
  }

  lemma {:induction false} FramesWithin(s: Signal, channels: nat, lo: real, hi: real)
    requires channels >= 1 && Within(s, lo, hi)
    ensures Within(Frames(s, channels), lo, hi)
    decreases |s|
  {
    hide Mean;
    if s != [] {
      if |s| <= channels {
        MeanWithin(s, lo, hi);
      } else {
        MeanWithin(s[..channels], lo, hi);
        FramesWithin(s[channels..], channels, lo, hi);
      }
    }
  }

  /** Every sample after downmixing and resampling lies between the bounds of the input samples. */
  lemma {:induction false} OutputWithin(s: Signal, channels: nat, fromHz: nat, toHz: nat, lo: real, hi: real)
    requires Within(s, lo, hi)
    ensures Within(Resampled(Downmix(s, channels), fromHz, toHz), lo, hi)
  {
    hide Interpolate, OutLength, Position, Frames;
    if channels > 1 { FramesWithin(s, channels, lo, hi); }
    var mono := Downmix(s, channels);
    var out := Resampled(mono, fromHz, toHz);
    if !(mono == [] || fromHz == 0 || toHz == 0 || fromHz == toHz) {
      forall i | 0 <= i < |out|
        ensures lo <= out[i] <= hi
      {
        PositionInside(|mono|, fromHz, toHz, i);
        InterpolateWithin(mono, Position(i, fromHz, toHz), lo, hi);
      }
    }
  }

  // ---------- Order ----------

  ghost predicate NonDecreasing(s: Signal) {
    forall i, j :: 0 <= i <= j < |s| ==> s[i] <= s[j]
  }

  /** On one segment the interpolation follows the position; between segments the samples separate the values. */
  lemma {:induction false} SegmentMonotone(a: real, b: real, f: real, g: real)
    requires a <= b && 0.0 <= f <= g <= 1.0
    ensures a <= a + (b - a) * f <= a + (b - a) * g <= b
  {
    var d := b - a;
    Between(a, b, f, a, b);
    Between(a, b, g, a, b);
    Scaled(f, g, d);
    assert f * d == d * f && g * d == d * g;
  }

  function Next(s: Signal, i: int): real
    requires 0 <= i < |s|
  {
    if i + 1 < |s| then s[i + 1] else s[i]
  }

  lemma NextIsLater(s: Signal, i: int, j: int)
    requires NonDecreasing(s) && 0 <= i <= j < |s|
    ensures s[i] <= Next(s, i) && s[j] <= Next(s, j)
    ensures i < j ==> Next(s, i) <= s[j]
  {
  }

  lemma {:induction false} InterpolateMonotone(s: Signal, x: real, y: real)
    requires NonDecreasing(s) && 0.0 <= x <= y < |s| as real
    ensures Interpolate(s, x) <= Interpolate(s, y)
  {
    hide NonDecreasing;
    var i, j := x.Floor, y.Floor;
    NextIsLater(s, i, j);
    if i == j {
      SegmentMonotone(s[i], Next(s, i), x - i as real, y - i as real);
    } else {
      SegmentMonotone(s[i], Next(s, i), x - i as real, 1.0);
      SegmentMonotone(s[j], Next(s, j), 0.0, y - j as real);
    }
  }

  /** Resampling keeps a non-decreasing signal non-decreasing. */
  lemma {:induction false} ResampleMonotone(mono: Signal, fromHz: nat, toHz: nat)
    requires NonDecreasing(mono)
    ensures NonDecreasing(Resampled(mono, fromHz, toHz))
  {
    hide Interpolate, OutLength, Position;
    var out := Resampled(mono, fromHz, toHz);
    if !(mono == [] || fromHz == 0 || toHz == 0 || fromHz == toHz) {
      forall i, j | 0 <= i <= j < |out|
        ensures out[i] <= out[j]
      {
        PositionInside(|mono|, fromHz, toHz, j);
        PositionGrows(i, j, fromHz, toHz);
        InterpolateMonotone(mono, Position(i, fromHz, toHz), Position(j, fromHz, toHz));
      }
    }
  }

  // ---------- The exact samples ----------

  /** Frame j of interleaved samples: those from j times the channels on, the last frame possibly shorter. */
  function FrameAt(s: Signal, channels: nat, j: nat): Signal
    requires j * channels <= |s|
  {
    if (j + 1) * channels <= |s| then s[j * channels..(j + 1) * channels] else s[j * channels..]
  }

  lemma TimesNext(j: nat, channels: nat)
    ensures (j + 1) * channels == j * channels + channels
  {
  }

  /** A downmix has one sample for each frame begun, and its sample j times the size of frame j is the sum of that frame. */
  lemma {:induction false} DownmixAverages(s: Signal, channels: nat, j: nat)
    ensures channels <= 1 ==> Downmix(s, channels) == s
    ensures channels > 1 ==> |s| <= |Downmix(s, channels)| * channels < |s| + channels
    ensures channels > 1 && j < |Downmix(s, channels)| ==>
      && j * channels < |s|
      && Downmix(s, channels)[j] * (|FrameAt(s, channels, j)| as real) == Sum(FrameAt(s, channels, j))
  {
    hide Frames, Sum, FrameAt;
    if channels > 1 {
      FramesCount(s, channels);
      if j < |Frames(s, channels)| { FrameIsAveraged(s, channels, j); }
    }
  }

  /** There is one frame for each begun. */
  lemma {:induction false} FramesCount(s: Signal, channels: nat)
    requires channels > 1
    ensures |s| <= |Frames(s, channels)| * channels < |s| + channels
    decreases |s|
  {
    hide Mean;
    if |s| > channels {
      var rest := Frames(s[channels..], channels);
      FramesCount(s[channels..], channels);
      TimesNext(|rest|, channels);
      assert |Frames(s, channels)| == |rest| + 1;
    } else if s != [] {
      TimesNext(0, channels);
      assert |Frames(s, channels)| == 1;
    }
  }

  lemma FirstFrame(s: Signal, channels: nat)
    ensures FrameAt(s, channels, 0) == if |s| <= channels then s else s[..channels]
  {
    TimesNext(0, channels);
    assert s[0..] == s && s[0..|s|] == s;
  }

  /** Sample j of a downmix times the size of frame j is the sum of that frame. */
  lemma {:induction false} FrameIsAveraged(s: Signal, channels: nat, j: nat)
    requires channels > 1 && j < |Frames(s, channels)|
    ensures j * channels < |s|
    ensures Frames(s, channels)[j] * (|FrameAt(s, channels, j)| as real) == Sum(FrameAt(s, channels, j))
    decreases |s|
  {
    hide Sum, Mean, FrameAt;
    if j == 0 {
      FirstFrame(s, channels);
      MeanTimes(if |s| <= channels then s else s[..channels]);
    } else {
      FrameIsAveraged(s[channels..], channels, j - 1);
      FrameOfRest(s, channels, j);
    }
  }

  lemma MeanTimes(frame: Signal)
    requires frame != []
    ensures Mean(frame) * (|frame| as real) == Sum(frame)
  {
    hide Sum;
  }

  lemma FrameOfRest(s: Signal, channels: nat, j: nat)
    requires j > 0 && channels <= |s| && (j - 1) * channels < |s| - channels
    ensures j * channels < |s| && FrameAt(s, channels, j) == FrameAt(s[channels..], channels, j - 1)
  {
    TimesNext(j - 1, channels);
    TimesNext(j, channels);
  }

  /** An output position in exact terms: k whole input samples and r parts in toHz of the way to the next. */
  ghost predicate Exact(i: nat, fromHz: nat, toHz: nat, k: nat, r: nat) {
    i * fromHz == k * toHz + r && r < toHz
  }

  lemma {:induction false} PositionExactly(i: nat, fromHz: nat, toHz: nat, k: nat, r: nat)
    requires fromHz > 0 && Exact(i, fromHz, toHz, k, r)
    ensures var x := Position(i, fromHz, toHz); x.Floor == k && (x - k as real) * toHz as real == r as real
  {
    PositionSign(i, fromHz, toHz);
    var x := Position(i, fromHz, toHz);
    var ratio := toHz as real / fromHz as real;
    assert x * ratio == i as real && ratio * fromHz as real == toHz as real;
    Regroup(x, ratio, fromHz as real, toHz as real, i as real);
    RealProduct(i, fromHz);
    RealProduct(k, toHz);
    FloorIs(x, k, r, toHz);
  }

  lemma Regroup(x: real, ratio: real, f: real, t: real, i: real)
    requires x * ratio == i && ratio * f == t
    ensures x * t == i * f
  {
    assert x * t == x * (ratio * f) == (x * ratio) * f;
  }

  lemma RealProduct(a: int, b: int)
    ensures (a * b) as real == a as real * b as real
  {
  }

  lemma FloorIs(x: real, k: nat, r: nat, t: nat)
    requires 0 <= r < t && x * t as real == k as real * t as real + r as real
    ensures x.Floor == k && (x - k as real) * t as real == r as real
  {
    var d := x - k as real;
    assert d * t as real == r as real;
    if d < 0.0 { NegativeProduct(d, t as real); }
    if d >= 1.0 { Scaled(1.0, d, t as real); }
  }

  lemma NegativeProduct(a: real, b: real)
    requires a < 0.0 && b > 0.0
    ensures a * b < 0.0
  {
  }

  /**
   The exact output: when i * fromHz is k times toHz and r more, sample i lies r parts in toHz of the way from
   input sample k to the next; past the last input sample it is that sample.
   */
  lemma {:induction false} ResampledExactly(mono: Signal, fromHz: nat, toHz: nat, i: nat, k: nat, r: nat)
    requires mono != [] && fromHz > 0 && fromHz != toHz && Exact(i, fromHz, toHz, k, r)
    requires i < |Resampled(mono, fromHz, toHz)|
    ensures k < |mono|
    ensures Resampled(mono, fromHz, toHz)[i] * toHz as real
         == if k + 1 < |mono| then mono[k] * (toHz - r) as real + mono[k + 1] * r as real else mono[k] * toHz as real
  {
    hide Position, OutLength, Exact, Interpolate;
    assert r < toHz by { PartsOf(i, fromHz, toHz, k, r); }
    PositionInside(|mono|, fromHz, toHz, i);
    PositionExactly(i, fromHz, toHz, k, r);
    InterpolatedExactly(mono, Position(i, fromHz, toHz), k, r, toHz);
  }

  lemma PartsOf(i: nat, fromHz: nat, toHz: nat, k: nat, r: nat)
    requires Exact(i, fromHz, toHz, k, r)
    ensures r < toHz
  {
  }

  lemma {:induction false} InterpolatedExactly(s: Signal, x: real, k: nat, r: nat, t: nat)
    requires x >= 0.0 && x.Floor == k < |s| && r < t && (x - k as real) * t as real == r as real
    ensures Interpolate(s, x) * t as real
         == if k + 1 < |s| then s[k] * (t - r) as real + s[k + 1] * r as real else s[k] * t as real
  {
    if k + 1 < |s| {
      Weighted(s[k], s[k + 1], x - k as real, t, r);
    } else {
      assert (s[k] - s[k]) * (x - k as real) == 0.0;
    }
  }

  lemma Weighted(a: real, b: real, f: real, t: nat, r: nat)
    requires r <= t && f * t as real == r as real
    ensures (a + (b - a) * f) * t as real == a * (t - r) as real + b * r as real
  {
    assert (b - a) * f * t as real == (b - a) * r as real;
    assert (t - r) as real == t as real - r as real;
  }

  /** k is the length n scaled from one rate to another, rounded to the nearest, half up. */
  ghost predicate Rounds(k: int, n: nat, fromHz: nat, toHz: nat) {
    (2 * k - 1) * fromHz <= 2 * (n * toHz) < (2 * k + 1) * fromHz
  }

  /** The output length is the input length times the ratio of the rates, rounded, and at least 1. */
  lemma {:induction false} LengthExactly(mono: Signal, fromHz: nat, toHz: nat)
    requires mono != [] && fromHz > 0 && toHz > 0 && fromHz != toHz
    ensures var k := |Resampled(mono, fromHz, toHz)|;
      Rounds(k, |mono|, fromHz, toHz) || (k == 1 && exists less :: less < 1 && Rounds(less, |mono|, fromHz, toHz))
  {
    hide Interpolate, Position, Rounds, Round;
    var x := |mono| as real * (toHz as real / fromHz as real);
    RatioTimes(toHz, fromHz);
    Regroup(|mono| as real, toHz as real / fromHz as real, fromHz as real, toHz as real, x);
    RoundNear(x);
    ScaledLength(|mono|, fromHz, toHz, x, Round(x));
  }

  lemma {:induction false} ScaledLength(n: nat, fromHz: nat, toHz: nat, x: real, k: int)
    requires fromHz > 0 && n as real * toHz as real == x * fromHz as real && k as real - 0.5 <= x < k as real + 0.5
    ensures Rounds(k, n, fromHz, toHz)
  {
    ScaleBetween(2 * k - 1, 2 * k + 1, k as real - 0.5, x, k as real + 0.5, n, fromHz, toHz);
  }

  lemma RatioTimes(t: nat, f: nat)
    requires f > 0
    ensures t as real / f as real * f as real == t as real
  {
  }

  lemma RoundNear(x: real)
    ensures Round(x) as real - 0.5 <= x < Round(x) as real + 0.5
  {
  }

  lemma {:induction false} ScaleBetween(a: int, c: int, lo: real, x: real, hi: real, n: nat, f: nat, t: nat)
    requires f > 0 && lo + lo == a as real && hi + hi == c as real && lo <= x < hi && n as real * t as real == x * f as real
    ensures a * f <= 2 * (n * t) < c * f
  {
    var z := f as real;
    Scaled(lo, x, z);
    Above(x, hi, z);
    HalfProduct(a, lo, f);
    HalfProduct(c, hi, f);
    TwiceProduct(n, t, x * z);
    Compare(a * f, 2 * (n * t), c * f, lo * z, x * z, hi * z);
  }

  lemma TwiceProduct(n: nat, t: nat, p: real)
    requires n as real * t as real == p
    ensures (2 * (n * t)) as real == 2.0 * p
  {
    RealProduct(n, t);
  }

  lemma Compare(a: int, b: int, c: int, lo: real, p: real, hi: real)
    requires a as real == 2.0 * lo && b as real == 2.0 * p && c as real == 2.0 * hi && lo <= p < hi
    ensures a <= b < c
  {
  }

  lemma HalfProduct(a: int, h: real, f: nat)
    requires h + h == a as real
    ensures 2.0 * (h * f as real) == (a * f) as real
  {
    RealProduct(a, f);
    assert 2.0 * (h * f as real) == (h + h) * f as real;
  }
}
