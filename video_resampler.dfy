/**
 * The tap-table builder of gst-libs/gst/video/video-resampler.c: the five
 * filter kernels, the tap-count policy of gst_video_resampler_init and the
 * geometry of resampler_calculate_taps (source position, anchor, offset,
 * normalised and folded weights) for every output sample.
 *
 * The table is specified by functions of a `Config` (the kernel, the sizes
 * and the final tap count) and built in place by the `Resampler` class.
 */
module VideoResampler {
  import opened ResamplerRows

  type Uint32 = x: int | 0 <= x < 0x1_0000_0000
  type Int32 = x: int | -0x8000_0000 <= x < 0x8000_0000

  datatype Method = Nearest | Linear | Cubic | Sinc | Lanczos

  /** A field of the options structure; the getters only accept a field of
      their own type. */
  datatype OptValue = IntValue(i: Int32) | DoubleValue(d: real)
  type Options = map<string, OptValue>

  const OptCubicB: string := "GstVideoResampler.cubic-b"
  const OptCubicC: string := "GstVideoResampler.cubic-c"
  const OptEnvelope: string := "GstVideoResampler.envelope"
  const OptSharpness: string := "GstVideoResampler.sharpness"
  const OptSharpen: string := "GstVideoResampler.sharpen"
  const OptMaxTaps: string := "GstVideoResampler.max-taps"

  const DefaultCubicB: real := 1.0 / 3.0
  const DefaultCubicC: real := 1.0 / 3.0
  const DefaultEnvelope: real := 2.0
  const DefaultSharpness: real := 1.0
  const DefaultSharpen: real := 0.0
  const DefaultMaxTaps: Int32 := 16

  /** G_PI */
  const Pi: real := 3.1415926535897932384626433832795028841971693993751

  function GetOptDouble(options: Options, name: string, def: real): real
  {
    if name in options && options[name].DoubleValue? then options[name].d else def
  }

  function GetOptInt(options: Options, name: string, def: Int32): Int32
  {
    if name in options && options[name].IntValue? then options[name].i else def
  }

  // ---------------------------------------------------------------------
  // Kernels. `sin` is the C library's sine, a parameter of the model.

  function Abs(x: real): real
  {
    if x < 0.0 then -x else x
  }

  /** sin (G_PI x) / (G_PI x), with the removable singularity at 0 set to 1. */
  function Sinc(sin: real -> real, x: real): (r: real)
    ensures x == 0.0 ==> r == 1.0
  {
    if x == 0.0 then 1.0 else sin(Pi * x) / (Pi * x)
  }

  /** The Lanczos window: sinc on (-1, 1), zero outside. */
  function Envelope(sin: real -> real, x: real): (r: real)
    ensures Abs(x) >= 1.0 ==> r == 0.0
    ensures x == 0.0 ==> r == 1.0
  {
    if x <= -1.0 || x >= 1.0 then 0.0 else Sinc(sin, x)
  }

  /** With an odd sine, sinc is even. */
  lemma SincEven(sin: real -> real, x: real)
    requires forall y :: sin(-y) == -sin(y)
    ensures Sinc(sin, -x) == Sinc(sin, x)
  {
    if x != 0.0 {
      assert Pi * -x == -(Pi * x);
      assert sin(Pi * -x) == -sin(Pi * x);
    }
  }

  /** With an odd sine, the Lanczos window is even. */
  lemma EnvelopeEven(sin: real -> real, x: real)
    requires forall y :: sin(-y) == -sin(y)
    ensures Envelope(sin, -x) == Envelope(sin, x)
  {
    SincEven(sin, x);
  }

  /** The cubic polynomial of bicubic() for |s| <= 1. */
  function CubicNear(s: real, b: real, c: real): real
  {
    ((12.0 - 9.0 * b - 6.0 * c) * (s * s * s) + (-18.0 + 12.0 * b + 6.0 * c) * (s * s) + (6.0 - 2.0 * b)) / 6.0
  }

  /** The cubic polynomial of bicubic() for 1 < |s| <= 2. */
  function CubicFar(s: real, b: real, c: real): real
  {
    ((-b - 6.0 * c) * (s * s * s) + (6.0 * b + 30.0 * c) * (s * s)
      + (-12.0 * b - 48.0 * c) * s + (8.0 * b + 24.0 * c)) / 6.0
  }

  /** The Mitchell-Netravali family with parameters `b` and `c`: an even
      kernel with support [-2, 2], whose two pieces meet at |s| = 1 (both
      give b/6) and which reaches 0 at |s| = 2. */
  function Bicubic(s0: real, b: real, c: real): (r: real)
    ensures Abs(s0) >= 2.0 ==> r == 0.0
    ensures Abs(s0) == 1.0 ==> r == b / 6.0
    ensures s0 == 0.0 ==> r == (6.0 - 2.0 * b) / 6.0
  {
    var s := Abs(s0);
    if s <= 1.0 then CubicNear(s, b, c)
    else if s <= 2.0 then CubicFar(s, b, c)
    else 0.0
  }

  /** The kernel chosen by the method switch, with the parameters it reads. */
  datatype Kernel =
    | NearestKernel
    | LinearKernel
    | CubicKernel(b: real, c: real)
    | SincKernel
    | LanczosKernel(fx: real, ex: real, sharpen: real)

  /** params->get_tap (params, l, xi, x) for a table of `maxTaps` taps per
      row: a nearest tap is 1 and a Lanczos tap vanishes outside its
      window. */
  function GetTap(k: Kernel, sin: real -> real, maxTaps: nat, l: nat, xi: int, x: real): (r: real)
    ensures k.NearestKernel? ==> r == 1.0
    ensures k.LanczosKernel? && Abs((x - (xi + l) as real) * k.ex) >= 1.0 ==> r == 0.0
  {
    match k
    case NearestKernel => 1.0
    case LinearKernel =>
      var n := ((maxTaps + 1) / 2) as real;
      var a := Abs(x - (xi + l) as real);
      if a < n then (n - a) / n else 0.0
    case CubicKernel(b, c) =>
      var a := x - (xi + 1) as real;
      if l == 0 then Bicubic(1.0 + a, b, c)
      else if l == 1 then Bicubic(a, b, c)
      else if l == 2 then Bicubic(1.0 - a, b, c)
      else Bicubic(2.0 - a, b, c)
    case SincKernel => Sinc(sin, x - (xi + l) as real)
    case LanczosKernel(fx, ex, sharpen) =>
      var d := x - (xi + l) as real;
      (Sinc(sin, d * fx) - sharpen) * Envelope(sin, d * ex)
  }

  /** A linear tap is a weight in [0, 1]: the tent of half-width
      `(max_taps + 1) / 2` (integer division) around the sample. */
  lemma LinearTapWeight(sin: real -> real, maxTaps: nat, l: nat, xi: int, x: real)
    ensures 0.0 <= GetTap(LinearKernel, sin, maxTaps, l, xi, x) <= 1.0
  {
    var n := ((maxTaps + 1) / 2) as real;
    var a := Abs(x - (xi + l) as real);
    if a < n {
      DivBetween(n - a, n);
    }
  }

  /** `p / n` lies in [0, 1] for 0 < p <= n. */
  lemma DivBetween(p: real, n: real)
    requires 0.0 < p <= n
    ensures 0.0 <= p / n <= 1.0
  {
  }

  // ---------------------------------------------------------------------
  // Tap-count policy of gst_video_resampler_init

  function Ceil(r: real): int
  {
    -((-r).Floor)
  }

  function Min(a: int, b: int): int
  {
    if a <= b then a else b
  }

  /** params.fx of the Lanczos branch: the sharpness, scaled down by the
      resampling ratio when downscaling. */
  function LanczosFx(options: Options, inSize: nat, outSize: nat): real
    requires outSize > 0
  {
    var inc := inSize as real / outSize as real;
    var sharpness := GetOptDouble(options, OptSharpness, DefaultSharpness);
    if inc > 1.0 then (1.0 / inc) * sharpness else 1.0 * sharpness
  }

  /** What the Lanczos branch needs to stay on the reals: `ex = fx / envelope`
      needs a non-zero envelope, and only when the caller asks for the
      default tap count is `dx = ceil (envelope / fx)` used, so only then must
      fx be non-zero and `2 * dx` fit a guint. */
  predicate LanczosDefined(options: Options, nTaps: Uint32, inSize: nat, outSize: nat)
    requires outSize > 0
  {
    var fx := LanczosFx(options, inSize, outSize);
    var env := GetOptDouble(options, OptEnvelope, DefaultEnvelope);
    && env != 0.0
    && (nTaps == 0 ==> fx != 0.0 && 0 <= 2 * Ceil(env / fx) < 0x1_0000_0000)
  }

  /** With an explicit tap count any non-zero envelope is accepted, whatever
      the sharpness: a negative one, or one so small that the unused default
      would not fit a guint. */
  lemma LanczosExplicitTaps(options: Options, nTaps: Uint32, inSize: nat, outSize: nat)
    requires outSize > 0 && nTaps != 0
    ensures LanczosDefined(options, nTaps, inSize, outSize)
            <==> GetOptDouble(options, OptEnvelope, DefaultEnvelope) != 0.0
  {
  }

  /** Without options and when not downscaling, Lanczos defaults to
      `2 * ceil (2.0 / 1.0) = 4` taps. */
  lemma LanczosDefaultTaps(inSize: nat, outSize: nat)
    requires 0 < outSize && inSize <= outSize
    ensures LanczosDefined(map[], 0, inSize, outSize)
    ensures Select(Lanczos, 0, map[], inSize, outSize).nTaps == 4
  {
    assert inSize as real / outSize as real <= 1.0 by {
      if inSize > 0 {
        DivBetween(inSize as real, outSize as real);
      }
    }
    assert LanczosFx(map[], inSize, outSize) == 1.0;
    assert Ceil(2.0 / 1.0) == 2;
  }

  /** The kernel and the tap count that the method switch selects from the
      caller's `n_taps` (0 asks for the method's default). */
  datatype Selection = Selection(kernel: Kernel, nTaps: Uint32)

  function Select(m: Method, nTaps: Uint32, options: Options, inSize: nat, outSize: nat): (s: Selection)
    requires outSize > 0 && (m == Lanczos ==> LanczosDefined(options, nTaps, inSize, outSize))
    ensures s.kernel.NearestKernel? <==> m == Nearest
    ensures s.kernel.LinearKernel? <==> m == Linear
    ensures s.kernel.CubicKernel? <==> m == Cubic
    ensures s.kernel.SincKernel? <==> m.Sinc?
    ensures s.kernel.LanczosKernel? <==> m == Lanczos
    ensures m == Cubic ==> s.nTaps == 4
    ensures m != Cubic && nTaps != 0 ==> s.nTaps == nTaps
    ensures s.nTaps != 0 || (m == Lanczos && nTaps == 0)
  {
    match m
    case Nearest => Selection(NearestKernel, if nTaps == 0 then 1 else nTaps)
    case Linear => Selection(LinearKernel, if nTaps == 0 then 2 else nTaps)
    case Cubic =>
      Selection(CubicKernel(GetOptDouble(options, OptCubicB, DefaultCubicB),
                            GetOptDouble(options, OptCubicC, DefaultCubicC)), 4)
    case Sinc => Selection(SincKernel, if nTaps == 0 then 4 else nTaps)
    case Lanczos =>
      var env := GetOptDouble(options, OptEnvelope, DefaultEnvelope);
      var fx := LanczosFx(options, inSize, outSize);
      Selection(LanczosKernel(fx, fx / env, GetOptDouble(options, OptSharpen, DefaultSharpen)),
                if nTaps == 0 then 2 * Ceil(env / fx) else nTaps)
  }

  /** `n_taps = CLAMP (n_taps, 0, max_taps)` compares a guint with a gint, so
      the cap is converted to unsigned; then the count is capped at in_size. */
  function FinalTaps(nTaps: Uint32, maxTapsOpt: Int32, inSize: nat): (t: nat)
    ensures t <= inSize && t <= nTaps
    ensures maxTapsOpt >= 0 ==> t == Min(Min(nTaps, maxTapsOpt), inSize)
    ensures maxTapsOpt < 0 && inSize < 0x8000_0000 ==> t == Min(nTaps, inSize)
  {
    var cap := if maxTapsOpt < 0 then maxTapsOpt + 0x1_0000_0000 else maxTapsOpt;
    var clamped := if nTaps > cap then cap else nTaps;
    if clamped > inSize then inSize else clamped
  }

  /** Everything resampler_calculate_taps reads. */
  datatype Config = Config(kernel: Kernel, sin: real -> real, shift: real,
                           inSize: nat, outSize: nat, maxTaps: nat)

  predicate ValidConfig(c: Config)
  {
    0 < c.inSize && 0 < c.outSize && c.maxTaps <= c.inSize
  }

  function Configure(m: Method, nTaps: Uint32, shift: real, inSize: nat, outSize: nat,
                     options: Options, sin: real -> real): (c: Config)
    requires outSize > 0 && (m == Lanczos ==> LanczosDefined(options, nTaps, inSize, outSize))
    ensures c.maxTaps <= inSize
  {
    var s := Select(m, nTaps, options, inSize, outSize);
    Config(s.kernel, sin, shift, inSize, outSize,
           FinalTaps(s.nTaps, GetOptInt(options, OptMaxTaps, DefaultMaxTaps), inSize))
  }

  // ---------------------------------------------------------------------
  // Geometry of one output sample

  /** `(max_taps - 1) / 2`, C division truncating toward zero. */
  function TapOffs(maxTaps: nat): nat
  {
    if maxTaps == 0 then 0 else (maxTaps - 1) / 2
  }

  function Corr(maxTaps: nat): real
  {
    if maxTaps == 1 then 0.0 else 0.5
  }

  /** CLAMP (x, lo, hi) */
  function ClampReal(x: real, lo: real, hi: real): real
  {
    if x > hi then hi else if x < lo then lo else x
  }

  /** The source position of output sample `j` before clamping:
      `(0.5 + j - shift) / out_size * in_size - corr`. */
  function Scaled(c: Config, j: nat): real
    requires ValidConfig(c)
  {
    (0.5 + j as real - c.shift) / c.outSize as real * c.inSize as real - Corr(c.maxTaps)
  }

  /** The (fractional) source position of output sample `j`. */
  function SourceX(c: Config, j: nat): (x: real)
    requires ValidConfig(c)
    ensures 0.0 <= x <= (c.inSize - 1) as real
  {
    ClampReal(Scaled(c, j), 0.0, (c.inSize - 1) as real)
  }

  /** `xi`, the first source sample of the unfolded window. */
  function Anchor(c: Config, j: nat): (xi: int)
    requires ValidConfig(c)
    ensures 0 <= xi + TapOffs(c.maxTaps) <= c.inSize - 1
    ensures EdgesFoldable(c.maxTaps, xi, c.inSize)
  {
    (SourceX(c, j) - TapOffs(c.maxTaps) as real).Floor
  }

  /** The weights straight from the kernel, before normalisation. */
  function RawTaps(c: Config, xi: int, x: real): (t: seq<real>)
    ensures |t| == c.maxTaps
    ensures forall l :: 0 <= l < c.maxTaps ==> t[l] == GetTap(c.kernel, c.sin, c.maxTaps, l, xi, x)
  {
    Tabulate(TapFn(c, xi, x), c.maxTaps)
  }

  /** `params->get_tap` with the kernel parameters and the position of one
      output sample bound. */
  function TapFn(c: Config, xi: int, x: real): nat -> real
  {
    (l: nat) => GetTap(c.kernel, c.sin, c.maxTaps, l, xi, x)
  }

  function Tabulate(f: nat -> real, n: nat): (t: seq<real>)
    ensures |t| == n && forall l :: 0 <= l < n ==> t[l] == f(l)
  {
    seq(n, l requires 0 <= l < n => f(l))
  }

  /** `weight += taps[l]` */
  function RealSum(t: seq<real>): real
    decreases |t|
  {
    if t == [] then 0.0 else RealSum(t[..|t| - 1]) + t[|t| - 1]
  }

  function Lift(t: seq<real>): (w: seq<Weight>)
    ensures |w| == |t| && AllFinite(w)
    ensures forall i :: 0 <= i < |t| ==> w[i] == W(t[i])
  {
    seq(|t|, i requires 0 <= i < |t| => W(t[i]))
  }

  /** Row `j` of the table: kernel weights divided by their sum, then folded
      at the source edges. */
  function Row(c: Config, j: nat): (r: seq<Weight>)
    requires ValidConfig(c)
    ensures |r| == c.maxTaps
  {
    RowAt(c, Anchor(c, j), SourceX(c, j))
  }

  /** The row of an output sample at source position `x` whose window starts
      at `xi`. */
  function RowAt(c: Config, xi: int, x: real): (r: seq<Weight>)
    requires EdgesFoldable(c.maxTaps, xi, c.inSize)
    ensures |r| == c.maxTaps
  {
    var raw := RawTaps(c, xi, x);
    EdgeFold(Normalise(Lift(raw), RealSum(raw)), xi, c.inSize)
  }

  /** offset[j]: the anchor moved by the folds. */
  function Offset(c: Config, j: nat): int
    requires ValidConfig(c)
  {
    EdgeOffset(Anchor(c, j), c.inSize, c.maxTaps)
  }

  /** The first `k` rows of the table. */
  function Rows(c: Config, k: nat): (rows: seq<seq<Weight>>)
    requires ValidConfig(c)
    ensures |rows| == k
    ensures forall i :: 0 <= i < k ==> |rows[i]| == c.maxTaps
    decreases k
  {
    if k == 0 then [] else Rows(c, k - 1) + [Row(c, k - 1)]
  }

  /** Rows laid out one after another, as in resampler->taps. */
  function Flatten(rows: seq<seq<Weight>>): seq<Weight>
    decreases |rows|
  {
    if rows == [] then [] else Flatten(rows[..|rows| - 1]) + rows[|rows| - 1]
  }

  // ---------------------------------------------------------------------
  // Properties of the table

  lemma {:induction false} RealSumLift(t: seq<real>)
    ensures Sum(Lift(t)) == W(RealSum(t))
    decreases |t|
  {
    if t != [] {
      assert Lift(t)[..|t| - 1] == Lift(t[..|t| - 1]);
      RealSumLift(t[..|t| - 1]);
    }
  }

  /** Every row's window lies inside the source: after the folds the offset
      is the anchor clamped to [0, in_size - max_taps]. */
  lemma OffsetInRange(c: Config, j: nat)
    requires ValidConfig(c)
    ensures 0 <= Offset(c, j) && Offset(c, j) + c.maxTaps <= c.inSize
    ensures Offset(c, j) == if Anchor(c, j) < 0 then 0
                            else Min(Anchor(c, j), c.inSize - c.maxTaps)
  {
    EdgeOffsetClamps(Anchor(c, j), c.inSize, c.maxTaps);
  }

  /** Whatever the kernel, a row sums to exactly 1 when its kernel weights
      have a non-zero sum; when they sum to zero the division by `weight`
      leaves the row non-finite. */
  lemma RowSumIsOne(c: Config, j: nat)
    requires ValidConfig(c) && c.maxTaps > 0
    ensures var raw := RawTaps(c, Anchor(c, j), SourceX(c, j));
            RealSum(raw) != 0.0 <==> Sum(Row(c, j)) == W(1.0)
  {
    var xi := Anchor(c, j);
    var raw := RawTaps(c, xi, SourceX(c, j));
    RealSumLift(raw);
    NormalisedRowSum(Lift(raw));
    EdgeFoldPreservesSum(Normalise(Lift(raw), RealSum(raw)), xi, c.inSize);
  }

  lemma DivMonotone(a: real, b: real, d: real)
    requires a <= b && d > 0.0
    ensures a / d <= b / d
  {
  }

  lemma MulMonotone(a: real, b: real, d: real)
    requires a <= b && d >= 0.0
    ensures a * d <= b * d
  {
  }

  lemma ClampMonotone(x: real, y: real, lo: real, hi: real)
    requires x <= y && lo <= hi
    ensures ClampReal(x, lo, hi) <= ClampReal(y, lo, hi)
  {
  }

  lemma FloorMonotone(a: real, b: real)
    requires a <= b
    ensures a.Floor <= b.Floor
  {
  }

  /** Later output samples never start earlier in the source. */
  lemma OffsetMonotone(c: Config, j1: nat, j2: nat)
    requires ValidConfig(c) && j1 <= j2
    ensures Offset(c, j1) <= Offset(c, j2)
  {
    SourceXMonotone(c, j1, j2);
    var t := TapOffs(c.maxTaps) as real;
    FloorMonotone(SourceX(c, j1) - t, SourceX(c, j2) - t);
    OffsetInRange(c, j1);
    OffsetInRange(c, j2);
  }

  lemma SourceXMonotone(c: Config, j1: nat, j2: nat)
    requires ValidConfig(c) && j1 <= j2
    ensures SourceX(c, j1) <= SourceX(c, j2)
  {
    ScaledMonotone(c, j1, j2);
    ClampMonotone(Scaled(c, j1), Scaled(c, j2), 0.0, (c.inSize - 1) as real);
  }

  lemma ScaledMonotone(c: Config, j1: nat, j2: nat)
    requires ValidConfig(c) && j1 <= j2
    ensures Scaled(c, j1) <= Scaled(c, j2)
  {
    var s1 := 0.5 + j1 as real - c.shift;
    var s2 := 0.5 + j2 as real - c.shift;
    DivMonotone(s1, s2, c.outSize as real);
    MulMonotone(s1 / c.outSize as real, s2 / c.outSize as real, c.inSize as real);
  }

  lemma DivMulCancel(a: real, d: real)
    requires d != 0.0
    ensures a / d * d == a
  {
  }

  /** Nearest-neighbour scaling between equal sizes with no shift maps
      output sample `j` to source sample `j` with weight 1. */
  lemma NearestIdentity(n: nat, sin: real -> real, j: nat)
    requires 0 < n && j < n
    ensures var c := Config(NearestKernel, sin, 0.0, n, n, 1);
            Offset(c, j) == j && Row(c, j) == [W(1.0)]
  {
    var c := Config(NearestKernel, sin, 0.0, n, n, 1);
    DivMulCancel(0.5 + j as real, n as real);
    assert SourceX(c, j) == if j == n - 1 then (n - 1) as real else j as real + 0.5;
    assert Anchor(c, j) == j;
    var raw := RawTaps(c, j, SourceX(c, j));
    assert raw == [1.0];
    assert RealSum(raw) == 1.0 by {
      assert raw[..0] == [];
    }
  }

  /** The four cubic weights at fractional position `a` are a partition of
      unity for every `b` and `c`. */
  lemma BicubicPartitionOfUnity(a: real, b: real, c: real)
    requires 0.0 <= a < 1.0
    ensures Bicubic(1.0 + a, b, c) + Bicubic(a, b, c) + Bicubic(1.0 - a, b, c) + Bicubic(2.0 - a, b, c) == 1.0
  {
    CubicIdentity(a, b, c);
    if a == 0.0 {
      assert Bicubic(1.0 + a, b, c) == CubicNear(1.0, b, c) == CubicFar(1.0, b, c);
      assert Bicubic(2.0 - a, b, c) == CubicFar(2.0, b, c);
    }
  }

  lemma CubicIdentity(a: real, b: real, c: real)
    ensures CubicFar(1.0 + a, b, c) + CubicNear(a, b, c) + CubicNear(1.0 - a, b, c) + CubicFar(2.0 - a, b, c) == 1.0
  {
  }

  /** The cubic method with its full four taps needs no normalisation: the
      kernel weights already sum to 1. */
  lemma CubicRowSumsToOne(c: Config, j: nat)
    requires ValidConfig(c) && c.kernel.CubicKernel? && c.maxTaps == 4
    ensures RealSum(RawTaps(c, Anchor(c, j), SourceX(c, j))) == 1.0
  {
    var x := SourceX(c, j);
    var xi := Anchor(c, j);
    var a := x - (xi + 1) as real;
    assert 0.0 <= a < 1.0;
    var raw := RawTaps(c, xi, x);
    BicubicPartitionOfUnity(a, c.kernel.b, c.kernel.c);
    RealSumOfFour(raw);
  }

  lemma RealSumOfFour(t: seq<real>)
    requires |t| == 4
    ensures RealSum(t) == t[0] + t[1] + t[2] + t[3]
  {
    assert t[..3][..2] == t[..2];
    assert t[..2][..1] == t[..1];
    assert t[..1][..0] == [];
    assert RealSum(t) == RealSum(t[..3]) + t[3];
    assert RealSum(t[..3]) == RealSum(t[..2]) + t[2];
    assert RealSum(t[..2]) == RealSum(t[..1]) + t[1];
    assert RealSum(t[..1]) == t[0];
  }

  lemma RealSumOfTwo(t: seq<real>)
    requires |t| == 2
    ensures RealSum(t) == t[0] + t[1]
  {
    assert t[..1][..0] == [];
    assert RealSum(t) == RealSum(t[..1]) + t[1];
    assert RealSum(t[..1]) == t[0];
  }

  /** Two-tap linear interpolation: the weights `1 - d` and `d` sum to 1. */
  lemma LinearRowSumsToOne(c: Config, j: nat)
    requires ValidConfig(c) && c.kernel.LinearKernel? && c.maxTaps == 2
    ensures RealSum(RawTaps(c, Anchor(c, j), SourceX(c, j))) == 1.0
  {
    var x := SourceX(c, j);
    var xi := Anchor(c, j);
    var raw := RawTaps(c, xi, x);
    RealSumOfTwo(raw);
    assert raw[0] == 1.0 - (x - xi as real);
    assert raw[1] == if x == xi as real then 0.0 else x - xi as real;
  }

  /** The selected tap count never exceeds the source size; with a
      non-negative max-taps option it is the smallest of the requested count
      (or the method's default for 0: nearest 1, linear 2, sinc 4; cubic
      always 4), the option and the source size. */
  lemma TapCountPolicy(m: Method, nTaps: Uint32, shift: real, inSize: nat, outSize: nat,
                       options: Options, sin: real -> real)
    requires outSize > 0 && (m == Lanczos ==> LanczosDefined(options, nTaps, inSize, outSize))
    ensures var c := Configure(m, nTaps, shift, inSize, outSize, options, sin);
            var cap := GetOptInt(options, OptMaxTaps, DefaultMaxTaps);
            && c.maxTaps <= inSize
            && (m == Cubic && cap >= 0 ==> c.maxTaps == Min(Min(4, cap), inSize))
            && (m != Cubic && nTaps != 0 && cap >= 0 ==> c.maxTaps == Min(Min(nTaps, cap), inSize))
            && (m == Nearest && nTaps == 0 && cap >= 0 ==> c.maxTaps == Min(Min(1, cap), inSize))
            && (m == Linear && nTaps == 0 && cap >= 0 ==> c.maxTaps == Min(Min(2, cap), inSize))
            && (m.Sinc? && nTaps == 0 && cap >= 0 ==> c.maxTaps == Min(Min(4, cap), inSize))
            && (m == Lanczos && nTaps == 0 && cap >= 0 ==>
                  c.maxTaps == Min(Min(2 * Ceil(GetOptDouble(options, OptEnvelope, DefaultEnvelope)
                                                / LanczosFx(options, inSize, outSize)), cap), inSize))
            && (cap < 0 && m != Cubic && nTaps != 0 && inSize < 0x8000_0000 ==> c.maxTaps == Min(nTaps, inSize))
  {
  }

  /** In a table of rows of `n` entries each, row `j` occupies entries
      `j * n .. j * n + n - 1`. */
  lemma {:induction false} FlattenIndex(rows: seq<seq<Weight>>, n: nat, j: nat, l: nat)
    requires forall i :: 0 <= i < |rows| ==> |rows[i]| == n
    requires j < |rows| && l < n
    ensures |Flatten(rows)| == |rows| * n
    ensures 0 <= j * n + l < |Flatten(rows)| && Flatten(rows)[j * n + l] == rows[j][l]
    decreases |rows|
  {
    var k := |rows|;
    var prev := rows[..k - 1];
    FlattenLength(rows, n);
    FlattenLength(prev, n);
    MulStep(j, k, n);
    if j < k - 1 {
      FlattenIndex(prev, n, j, l);
      ConcatIndex(Flatten(prev), rows[k - 1], j * n + l);
    } else {
      assert j * n + l == |Flatten(prev)| + l;
    }
  }

  lemma {:induction false} FlattenLength(rows: seq<seq<Weight>>, n: nat)
    requires forall i :: 0 <= i < |rows| ==> |rows[i]| == n
    ensures |Flatten(rows)| == |rows| * n
    decreases |rows|
  {
    if rows != [] {
      FlattenLength(rows[..|rows| - 1], n);
      MulStep(|rows| - 1, |rows|, n);
    }
  }

  /** Row `j` of the first `k` rows is Row(c, j). */
  lemma {:induction false} RowsIndex(c: Config, k: nat, j: nat)
    requires ValidConfig(c) && j < k
    ensures Rows(c, k)[j] == Row(c, j)
    decreases k
  {
    if j < k - 1 {
      RowsIndex(c, k - 1, j);
    }
  }

  lemma ConcatIndex(a: seq<Weight>, b: seq<Weight>, i: nat)
    requires i < |a|
    ensures (a + b)[i] == a[i]
  {
  }

  lemma MulStep(j: nat, k: nat, mt: nat)
    requires j < k
    ensures 0 <= j * mt
    ensures j * mt + mt <= k * mt
    ensures (j + 1) * mt == j * mt + mt
  {
    var d := k - j - 1;
    assert k * mt == (j + 1) * mt + d * mt;
    assert 0 <= d * mt;
  }

  // ---------------------------------------------------------------------
  // In-place construction

  /** `taps[l] = params->get_tap (params, l, xi, x); weight += taps[l];` */
  method ComputeRawRow(a: array<Weight>, base: nat, c: Config, xi: int, x: real) returns (weight: real)
    requires base + c.maxTaps <= a.Length
    modifies a
    ensures a[base..base + c.maxTaps] == Lift(RawTaps(c, xi, x))
    ensures weight == RealSum(RawTaps(c, xi, x))
    ensures a[..base] == old(a[..base])
  {
    weight := StoreTaps(a, base, c.maxTaps, TapFn(c, xi, x));
  }

  /** The tap loop for any `get_tap`: stores `n` weights and returns their sum. */
  method StoreTaps(a: array<Weight>, base: nat, n: nat, tap: nat -> real) returns (weight: real)
    requires base + n <= a.Length
    modifies a
    ensures a[base..base + n] == Lift(Tabulate(tap, n))
    ensures weight == RealSum(Tabulate(tap, n))
    ensures a[..base] == old(a[..base])
  {
    ghost var raw := Tabulate(tap, n);
    weight := 0.0;
    var l := 0;
    while l < n
      invariant 0 <= l <= n
      invariant forall i :: base <= i < base + l ==> a[i] == W(raw[i - base])
      invariant weight == RealSum(raw[..l])
      invariant forall i :: 0 <= i < base ==> a[i] == old(a[i])
    {
      var t := tap(l);
      a[base + l] := W(t);
      assert raw[..l + 1][..l] == raw[..l];
      assert RealSum(raw[..l + 1]) == RealSum(raw[..l]) + t;
      weight := weight + t;
      l := l + 1;
    }
    assert raw[..n] == raw;
    assert a[base..base + n] == Lift(raw);
  }

  /** The source position `x` and anchor `xi` of output sample `j`, computed
      as the loop body of resampler_calculate_taps does. */
  method Position(c: Config, j: nat) returns (x: real, xi: int)
    requires ValidConfig(c)
    ensures x == SourceX(c, j) && xi == Anchor(c, j)
  {
    var tapOffs := TapOffs(c.maxTaps);
    var corr := Corr(c.maxTaps);
    var ox := (0.5 + j as real - c.shift) / c.outSize as real;
    x := ox * c.inSize as real - corr;
    x := ClampReal(x, 0.0, (c.inSize - 1) as real);
    xi := (x - tapOffs as real).Floor;
  }

  /** Fills row `j` of `taps`, which starts at `base`, and returns offset[j]. */
  method ComputeRow(taps: array<Weight>, c: Config, j: nat, base: nat) returns (off: int)
    requires ValidConfig(c) && j < c.outSize && base + c.maxTaps <= taps.Length
    modifies taps
    ensures off == Offset(c, j)
    ensures taps[base..base + c.maxTaps] == Row(c, j)
    ensures taps[..base] == old(taps[..base])
  {
    var x, xi := Position(c, j);
    off := FillRowAt(taps, base, c, xi, x);
  }

  /** The body of the loop of resampler_calculate_taps once `x` and `xi` are known. */
  method FillRowAt(taps: array<Weight>, base: nat, c: Config, xi: int, x: real) returns (off: int)
    requires base + c.maxTaps <= taps.Length && EdgesFoldable(c.maxTaps, xi, c.inSize)
    modifies taps
    ensures off == EdgeOffset(xi, c.inSize, c.maxTaps)
    ensures taps[base..base + c.maxTaps] == RowAt(c, xi, x)
    ensures taps[..base] == old(taps[..base])
  {
    ghost var lifted := Lift(RawTaps(c, xi, x));
    var weight := ComputeRawRow(taps, base, c, xi, x);
    NormaliseInPlace(taps, base, c.maxTaps, weight, lifted);
    off := FoldEdges(taps, base, c.maxTaps, c.inSize, xi, Normalise(lifted, weight));
  }

  /** Appending row `j` after the first `j` rows gives the first `j + 1`. */
  lemma TablePrefixStep(rows: seq<seq<Weight>>, j: nat, t: seq<Weight>, base: nat, n: nat)
    requires j < |rows| && |rows[j]| == n && base + n <= |t|
    requires t[..base] == Flatten(rows[..j]) && t[base..base + n] == rows[j]
    ensures t[..base + n] == Flatten(rows[..j + 1])
  {
    assert t[..base + n] == t[..base] + t[base..base + n];
    assert rows[..j + 1][..j] == rows[..j];
  }

  /** The allocations of resampler_calculate_taps followed by its loop over
      the output samples; returns the taps, n_taps, offset and phase arrays. */
  method BuildTables(c: Config) returns (t: array<Weight>, nt: array<int>, off: array<int>, ph: array<int>)
    requires ValidConfig(c)
    ensures fresh(t) && fresh(nt) && fresh(off) && fresh(ph)
    ensures t.Length == c.outSize * c.maxTaps
    ensures nt.Length == c.outSize && off.Length == c.outSize && ph.Length == c.outSize
    ensures t[..] == Flatten(Rows(c, c.outSize))
    ensures forall i :: 0 <= i < c.outSize ==> off[i] == Offset(c, i) && ph[i] == i && nt[i] == c.maxTaps
  {
    t := new Weight[c.outSize * c.maxTaps];
    nt := new int[c.outSize];
    off := new int[c.outSize];
    ph := new int[c.outSize];
    FillTables(t, nt, off, ph, c);
  }

  /** The loop over the output samples, on already allocated arrays. */
  method FillTables(t: array<Weight>, nt: array<int>, off: array<int>, ph: array<int>, c: Config)
    requires ValidConfig(c) && t.Length == c.outSize * c.maxTaps
    requires nt.Length == c.outSize && off.Length == c.outSize && ph.Length == c.outSize
    requires nt != off && nt != ph && off != ph
    modifies t, nt, off, ph
    ensures t[..] == Flatten(Rows(c, c.outSize))
    ensures forall i :: 0 <= i < c.outSize ==> off[i] == Offset(c, i) && ph[i] == i && nt[i] == c.maxTaps
  {
    ghost var rows := Rows(c, c.outSize);
    var mt := c.maxTaps;
    var j := 0;
    var base: nat := 0;
    while j < c.outSize
      invariant 0 <= j <= c.outSize
      invariant base == j * mt && base <= t.Length
      invariant t[..base] == Flatten(rows[..j])
      invariant forall i :: 0 <= i < j ==> off[i] == Offset(c, i) && ph[i] == i && nt[i] == mt
    {
      MulStep(j, c.outSize, mt);
      RowsIndex(c, c.outSize, j);
      FillStep(t, nt, off, ph, c, j, base, rows);
      j := j + 1;
      base := base + mt;
    }
    assert t[..] == t[..base];
    assert rows[..j] == rows;
  }

  method FillStep(t: array<Weight>, nt: array<int>, off: array<int>, ph: array<int>, c: Config, j: nat, base: nat,
                  ghost rows: seq<seq<Weight>>)
    requires ValidConfig(c) && t.Length == c.outSize * c.maxTaps
    requires nt.Length == c.outSize && off.Length == c.outSize && ph.Length == c.outSize
    requires nt != off && nt != ph && off != ph
    requires j < c.outSize && base == j * c.maxTaps && base + c.maxTaps <= t.Length
    requires |rows| == c.outSize && rows[j] == Row(c, j)
    requires t[..base] == Flatten(rows[..j])
    requires forall i :: 0 <= i < j ==> off[i] == Offset(c, i) && ph[i] == i && nt[i] == c.maxTaps
    modifies t, nt, off, ph
    ensures t[..base + c.maxTaps] == Flatten(rows[..j + 1])
    ensures forall i :: 0 <= i < j + 1 ==> off[i] == Offset(c, i) && ph[i] == i && nt[i] == c.maxTaps
  {
    FillRow(t, nt, off, ph, c, j, base);
    TablePrefixStep(rows, j, t[..], base, c.maxTaps);
  }

  /** One pass of the loop body of resampler_calculate_taps: row `j` of the
      taps and entry `j` of offset, phase and n_taps. */
  method FillRow(t: array<Weight>, nt: array<int>, off: array<int>, ph: array<int>, c: Config, j: nat, base: nat)
    requires ValidConfig(c) && j < c.outSize && base + c.maxTaps <= t.Length
    requires nt.Length == c.outSize && off.Length == c.outSize && ph.Length == c.outSize
    requires nt != off && nt != ph && off != ph
    modifies t, nt, off, ph
    ensures t[base..base + c.maxTaps] == Row(c, j)
    ensures t[..base] == old(t[..base])
    ensures off[..] == old(off[..])[j := Offset(c, j)]
    ensures ph[..] == old(ph[..])[j := j]
    ensures nt[..] == old(nt[..])[j := c.maxTaps]
  {
    var o := ComputeRow(t, c, j, base);
    off[j] := o;
    ph[j] := j;
    nt[j] := c.maxTaps;
  }

  /** The state of a GstVideoResampler. */
  class Resampler {
    var inSize: nat
    var outSize: nat
    var maxTaps: nat
    var nPhases: nat
    var offset: array<int>
    var phase: array<int>
    var nTaps: array<int>
    var taps: array<Weight>

    /** A zero-filled resampler, before gst_video_resampler_init. */
    constructor ()
      ensures inSize == 0 && outSize == 0 && maxTaps == 0 && nPhases == 0
      ensures offset.Length == 0 && phase.Length == 0 && nTaps.Length == 0 && taps.Length == 0
    {
      inSize, outSize, maxTaps, nPhases := 0, 0, 0, 0;
      offset := new int[0];
      phase := new int[0];
      nTaps := new int[0];
      taps := new Weight[0];
    }

    /** The resampler holds the tables that `c` describes. */
    ghost predicate Holds(c: Config)
      requires ValidConfig(c)
      reads this, offset, phase, nTaps, taps
    {
      && inSize == c.inSize && outSize == c.outSize && maxTaps == c.maxTaps
      && offset.Length == outSize && phase.Length == outSize && nTaps.Length == outSize
      && taps.Length == outSize * maxTaps
      && (forall j :: 0 <= j < outSize ==> offset[j] == Offset(c, j) && phase[j] == j && nTaps[j] == maxTaps)
      && taps[..] == Flatten(Rows(c, outSize))
    }

    /** resampler_calculate_taps */
    method CalculateTaps(c: Config)
      requires ValidConfig(c)
      modifies this
      ensures Holds(c)
      ensures nPhases == old(nPhases)
      ensures fresh(offset) && fresh(phase) && fresh(nTaps) && fresh(taps)
    {
      var t, nt, off, ph := BuildTables(c);
      inSize, outSize, maxTaps := c.inSize, c.outSize, c.maxTaps;
      taps, nTaps, offset, phase := t, nt, off, ph;
    }

    /** gst_video_resampler_init: FALSE, with nothing changed, unless both
        sizes are non-zero and there is one phase per output sample. */
    method Init(m: Method, nPhases: Uint32, nTaps: Uint32, shift: real, inSize: Uint32, outSize: Uint32,
                options: Options, sin: real -> real) returns (ok: bool)
      requires (outSize > 0 && m == Lanczos) ==> LanczosDefined(options, nTaps, inSize, outSize)
      modifies this
      ensures ok <==> inSize != 0 && outSize != 0 && nPhases == outSize
      ensures !ok ==> unchanged(this)
      ensures ok ==> this.nPhases == nPhases
      ensures ok ==> Holds(Configure(m, nTaps, shift, inSize, outSize, options, sin))
      ensures ok ==> forall j :: 0 <= j < this.outSize ==>
                       0 <= offset[j] && offset[j] + maxTaps <= this.inSize
    {
      if inSize == 0 || outSize == 0 || nPhases != outSize {
        return false;
      }
      this.nPhases := nPhases;
      var c := Configure(m, nTaps, shift, inSize, outSize, options, sin);
      CalculateTaps(c);
      forall j | 0 <= j < outSize
        ensures 0 <= offset[j] && offset[j] + maxTaps <= inSize
      {
        OffsetInRange(c, j);
      }
      ok := true;
    }
  }
}
