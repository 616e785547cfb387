/**
 * GstAudioInfo and the operations of gst-libs/gst/audio/audio.c that work on
 * it or on sample memory: gst_audio_info_init, gst_audio_info_set_format,
 * gst_audio_format_fill_silence and gst_audio_info_convert, with the
 * GST_FRAMES_TO_CLOCK_TIME and GST_CLOCK_TIME_TO_FRAMES macros of audio.h.
 *
 * C integers are unbounded here; where a value crosses between gint64 and
 * guint64 the two's-complement reinterpretation is written out.
 */
module Audio {
  import opened Wrappers
  import opened AudioFormat

  // ---------------------------------------------------------------------
  // Machine integers

  const TwoTo63: int := 0x8000_0000_0000_0000
  const TwoTo64: int := 0x1_0000_0000_0000_0000
  /** G_MAXUINT64 */
  const MaxU64: nat := 0xFFFF_FFFF_FFFF_FFFF

  /** The values of a gint64. */
  predicate IsInt64(v: int)
  {
    -TwoTo63 <= v < TwoTo63
  }

  /** A gint64 read as a guint64. */
  function ToU64(v: int): (u: nat)
    requires IsInt64(v)
    ensures u <= MaxU64 && u % TwoTo64 == v % TwoTo64
  {
    if v < 0 then v + TwoTo64 else v
  }

  /** A guint64 stored into a gint64. */
  function FromU64(u: nat): (v: int)
    requires u <= MaxU64
    ensures IsInt64(v) && v % TwoTo64 == u % TwoTo64
  {
    if u < TwoTo63 then u else u - TwoTo64
  }

  /** The values of a gint. */
  predicate IsInt32(v: int)
  {
    -0x8000_0000 <= v < 0x8000_0000
  }

  /** An int64 result kept to 64 bits, two's complement. */
  function Wrap64(x: int): (v: int)
    ensures IsInt64(v) && v % TwoTo64 == x % TwoTo64
    ensures IsInt64(x) ==> v == x
  {
    var m := x % TwoTo64;
    if m < TwoTo63 then m else m - TwoTo64
  }

  /** C division: the quotient is truncated toward zero. */
  function TruncDiv(a: int, b: int): (q: int)
    requires b != 0
    ensures 0 <= a && 0 < b ==> q == a / b
    ensures q * b == a - TruncRem(a, b)
  {
    if (a < 0) == (b < 0) then
      (if a < 0 then -a else a) / (if b < 0 then -b else b)
    else
      -((if a < 0 then -a else a) / (if b < 0 then -b else b))
  }

  /** The remainder that goes with TruncDiv: it takes the sign of `a` and is
      smaller than `b` in magnitude. */
  function TruncRem(a: int, b: int): int
    requires b != 0
  {
    var m := (if a < 0 then -a else a) % (if b < 0 then -b else b);
    if a < 0 then -m else m
  }

  // ---------------------------------------------------------------------
  // Rounded scaling

  /** GST_SECOND: nanoseconds in a second. */
  const Second: nat := 1_000_000_000

  /** gst_util_uint64_scale_round: `val * num / denom` rounded to the nearest
      integer, halves up, computed without intermediate overflow;
      G_MAXUINT64 when `denom` is 0 or the result does not fit. */
  function ScaleRound(val: nat, num: nat, denom: nat): (r: nat)
    ensures r <= MaxU64
  {
    if denom == 0 then MaxU64
    else
      var q := (val * num + denom / 2) / denom;
      if q > MaxU64 then MaxU64 else q
  }

  /** GST_FRAMES_TO_CLOCK_TIME: the nanoseconds nearest to `frames / rate`
      seconds, a half rounding up, as long as they fit a guint64. */
  function FramesToClockTime(frames: nat, rate: nat): (t: nat)
    ensures t <= MaxU64
    ensures 0 < rate && (frames * Second + rate / 2) / rate <= MaxU64 ==>
              2 * (frames * Second) - rate < 2 * (t * rate) <= 2 * (frames * Second) + rate
  {
    if 0 < rate && (frames * Second + rate / 2) / rate <= MaxU64 then
      ScaleRoundNearest(frames, Second, rate, ScaleRound(frames, Second, rate));
      ScaleRound(frames, Second, rate)
    else
      ScaleRound(frames, Second, rate)
  }

  /** GST_CLOCK_TIME_TO_FRAMES: the frame count nearest to `time * rate`
      nanoseconds' worth, a half rounding up, as long as it fits a guint64. */
  function ClockTimeToFrames(time: nat, rate: nat): (f: nat)
    ensures f <= MaxU64
    ensures (time * rate + Second / 2) / Second <= MaxU64 ==>
              2 * (time * rate) - Second < 2 * (f * Second) <= 2 * (time * rate) + Second
  {
    if (time * rate + Second / 2) / Second <= MaxU64 then
      ScaleRoundNearest(time, rate, Second, ScaleRound(time, rate, Second));
      ScaleRound(time, rate, Second)
    else
      ScaleRound(time, rate, Second)
  }

  /** `q` is `a / d` as soon as it brackets `a` between consecutive multiples
      of `d`. */
  lemma DivBracket(a: int, d: int, q: int)
    requires 0 < d && q * d <= a < q * d + d
    ensures a / d == q
  {
    var r := a / d;
    assert a == r * d + a % d;
    MulDistance(q, r, d);
  }

  /** Multiples of `d` that differ by less than `d` are equal. */
  lemma MulDistance(q: int, r: int, d: int)
    requires 0 < d && -d < q * d - r * d < d
    ensures q == r
  {
    assert q * d - r * d == (q - r) * d;
    assert r * d - q * d == (r - q) * d;
    MulBelowOne(q - r, d);
    MulBelowOne(r - q, d);
  }

  /** A quotient below `m + 1`. */
  lemma DivBelow(a: int, d: int, m: int)
    requires 0 < d && 0 <= a < (m + 1) * d
    ensures a / d <= m
  {
    var r := a / d;
    assert a == r * d + a % d;
    if r > m {
      MulMono(m + 1, r, d);
    }
  }

  /** A quotient of at least `k`. */
  lemma DivAbove(a: int, d: int, k: int)
    requires 0 < d && k * d <= a
    ensures k <= a / d
  {
    var r := a / d;
    assert a == r * d + a % d;
    assert (k - r) * d == k * d - r * d;
    MulBelowOne(k - r, d);
  }

  /** Adding `n` does not change the remainder by `n`. */
  lemma ModShift(k: nat, n: nat)
    requires 0 < n
    ensures (k + n) % n == k % n
  {
    assert k == (k / n) * n + k % n;
    DivBracket(k + n, n, k / n + 1);
  }

  /** An unsaturated ScaleRound is the integer nearest to `val * num / denom`,
      a half rounding up: it is the one `r` with
      `2 val num - denom < 2 r denom <= 2 val num + denom`. */
  lemma ScaleRoundNearest(val: nat, num: nat, denom: nat, r: int)
    requires 0 < denom && (val * num + denom / 2) / denom <= MaxU64
    ensures ScaleRound(val, num, denom) == r
      <==> 2 * (val * num) - denom < 2 * (r * denom) <= 2 * (val * num) + denom
  {
    var x := val * num;
    var a := x + denom / 2;
    var q := a / denom;
    assert a == q * denom + a % denom;
    if 2 * x - denom < 2 * (r * denom) <= 2 * x + denom {
      assert r * denom <= a;
      assert a < r * denom + denom;
      DivBracket(a, denom, r);
    }
  }

  /** The second rounding undoes the first: a time `t` within half a sample
      period of `f` seconds' worth (`2 f S - rate < 2 t rate <= 2 f S + rate`)
      scales back to `f`, as long as a sample period is at most a second. */
  lemma RoundBack(f: nat, t: nat, rate: nat, s: nat)
    requires 0 < rate <= s && s % 2 == 0
    requires 2 * (f * s) - rate < 2 * (t * rate) <= 2 * (f * s) + rate
    ensures (t * rate + s / 2) / s == f
  {
    var h := s / 2;
    assert s == 2 * h;
    if rate == s {
      assert (t - f) * s == t * s - f * s;
      MulBelowOne(t - f, s);
      MulMono(t, f, s);
    }
    DivBracket(t * rate + h, s, f);
  }

  /** A product with `s` that stays below `s` has a factor below 1. */
  lemma MulBelowOne(a: int, s: int)
    requires 0 < s && a * s < s
    ensures a <= 0
  {
    if a >= 1 {
      MulMono(1, a, s);
    }
  }

  /** Multiplying by a non-negative number keeps the order. */
  lemma MulMono(a: int, b: int, c: int)
    requires a <= b && 0 <= c
    ensures a * c <= b * c
  {
    assert b * c - a * c == (b - a) * c;
  }

  /** With a rate of at most GST_SECOND, a frame count turned into clock
      time and back is the frame count again. */
  lemma FramesRoundTrip(frames: nat, rate: nat)
    requires 0 < rate <= Second && frames * Second <= MaxU64
    ensures ClockTimeToFrames(FramesToClockTime(frames, rate), rate) == frames
  {
    var x := frames * Second;
    var t := (x + rate / 2) / rate;
    MulMono(1, rate, x);
    assert (x + 1) * rate == x * rate + rate;
    DivBelow(x + rate / 2, rate, x);
    assert FramesToClockTime(frames, rate) == t;
    ScaleRoundNearest(frames, Second, rate, t);
    RoundBack(frames, t, rate, Second);
    MulMono(1, Second, frames);
  }

  // ---------------------------------------------------------------------
  // gst_audio_format_fill_silence

  /** `width >> 3`: the bytes of one stored sample. */
  function SampleBytes(f: Format): nat
  {
    if Width(f) < 0 then 0 else Width(f) / 8
  }

  /** Whether fill_silence writes zero bytes: float or signed rows. */
  predicate SilentAtZero(f: Format)
  {
    HasFlag(Flags(f), FlagFloat) || HasFlag(Flags(f), FlagSigned)
  }

  /** The silence byte at offset `k` of a filled buffer: 0 for signed and
      float rows, otherwise byte `k mod bps` of the row's silent sample. */
  function SilenceByte(f: Format, k: nat): bv8
    requires f != Unknown
  {
    if SilentAtZero(f) then 0
    else
      RowSizes(f);
      Silence(f)[k % SampleBytes(f)]
  }

  /** Offsets a whole number of samples apart hold the same byte. */
  lemma SilencePeriodic(f: Format, k: nat)
    requires f != Unknown
    ensures SilenceByte(f, k + SampleBytes(f)) == SilenceByte(f, k)
  {
    RowSizes(f);
    ModShift(k, SampleBytes(f));
  }

  /** The first multiple of `n` at or past `length`. */
  function RoundedUp(length: nat, n: nat): nat
    requires 0 < n
  {
    (length + n - 1) / n * n
  }

  /** The number of bytes gst_audio_format_fill_silence writes for a request
      of `length` bytes: on the sample-by-sample path it writes whole
      samples, so `length` rounded up to a multiple of bps. */
  function WrittenAsWritten(f: Format, length: nat): nat
  {
    if SilentAtZero(f) || SampleBytes(f) <= 1 then length
    else RoundedUp(length, SampleBytes(f))
  }

  /** With a length that is not a multiple of the sample size the C loop
      writes past the requested bytes: three bytes of U16LE silence come out
      as four. */
  lemma SilenceOverrun()
    ensures WrittenAsWritten(U16LE, 3) == 4
  {
  }

  /** `(i + j) mod n == j` when `i` is a multiple of `n` and `j < n`. */
  lemma ModInSample(i: nat, j: nat, n: nat)
    requires 0 < n && j < n && i % n == 0
    ensures (i + j) % n == j
  {
    assert i == (i / n) * n;
    DivBracket(i + j, n, i / n);
  }

  /** The rounded-up length is the first multiple of `n` at or past
      `length`. */
  lemma RoundUp(i: nat, n: nat, length: nat)
    requires 1 < n && i % n == 0
    ensures i < length ==> i + n <= RoundedUp(length, n)
    ensures length <= i ==> RoundedUp(length, n) <= i
  {
    var m := i / n;
    assert i == m * n;
    var q := (length + n - 1) / n;
    assert (m + 1) * n == m * n + n;
    if i < length {
      DivAbove(length + n - 1, n, m + 1);
      MulMono(m + 1, q, n);
    } else {
      DivBelow(length + n - 1, n, m);
      MulMono(q, m, n);
    }
  }

  /** The next multiple of `n`. */
  lemma NextSample(i: nat, n: nat)
    requires 0 < n && i % n == 0
    ensures (i + n) % n == 0
  {
    assert i == (i / n) * n;
    DivBracket(i + n, n, i / n + 1);
  }

  /** memset(dest, b, length) */
  method Fill(dest: array<bv8>, b: bv8, length: nat)
    requires length <= dest.Length
    modifies dest
    ensures forall k :: 0 <= k < length ==> dest[k] == b
    ensures forall k :: length <= k < dest.Length ==> dest[k] == old(dest[k])
  {
    var k := 0;
    while k < length
      invariant 0 <= k <= length
      invariant forall m :: 0 <= m < k ==> dest[m] == b
      invariant forall m :: k <= m < dest.Length ==> dest[m] == old(dest[m])
    {
      dest[k] := b;
      k := k + 1;
    }
  }

  /** The inner loop of the C code: `sample` is copied to bytes
      i .. i + |sample| - 1. */
  method WriteSample(dest: array<bv8>, i: nat, sample: seq<bv8>)
    requires i + |sample| <= dest.Length
    modifies dest
    ensures forall k :: 0 <= k < i ==> dest[k] == old(dest[k])
    ensures forall k :: i <= k < i + |sample| ==> dest[k] == sample[k - i]
    ensures forall k :: i + |sample| <= k < dest.Length ==> dest[k] == old(dest[k])
  {
    var j := 0;
    while j < |sample|
      invariant 0 <= j <= |sample|
      invariant forall k :: 0 <= k < i ==> dest[k] == old(dest[k])
      invariant forall k :: i <= k < i + j ==> dest[k] == sample[k - i]
      invariant forall k :: i + j <= k < dest.Length ==> dest[k] == old(dest[k])
    {
      dest[i + j] := sample[j];
      j := j + 1;
    }
  }

  /** The sample-by-sample path of the C code: whole copies of `sample` from
      offset 0 until `length` is reached or passed. */
  method WriteWholeSamples(dest: array<bv8>, length: nat, sample: seq<bv8>)
    requires 1 < |sample| && RoundedUp(length, |sample|) <= dest.Length
    modifies dest
    ensures forall k :: 0 <= k < RoundedUp(length, |sample|) ==> dest[k] == sample[k % |sample|]
    ensures forall k :: RoundedUp(length, |sample|) <= k < dest.Length ==> dest[k] == old(dest[k])
  {
    var n := |sample|;
    var i := 0;
    while i < length
      invariant i % n == 0 && i <= RoundedUp(length, n)
      invariant forall k :: 0 <= k < i ==> dest[k] == sample[k % n]
      invariant forall k :: i <= k < dest.Length ==> dest[k] == old(dest[k])
      decreases length - i
    {
      RoundUp(i, n, length);
      WriteSample(dest, i, sample);
      forall k | i <= k < i + n
        ensures dest[k] == sample[k % n]
      {
        ModInSample(i, k - i, n);
      }
      NextSample(i, n);
      i := i + n;
    }
    RoundUp(i, n, length);
  }

  /** The sample-by-sample path stopped at `length`: the last copy of
      `sample` is cut short. */
  method WriteCutSamples(dest: array<bv8>, length: nat, sample: seq<bv8>)
    requires 0 < |sample| && length <= dest.Length
    modifies dest
    ensures forall k :: 0 <= k < length ==> dest[k] == sample[k % |sample|]
    ensures forall k :: length <= k < dest.Length ==> dest[k] == old(dest[k])
  {
    var k := 0;
    while k < length
      invariant 0 <= k <= length
      invariant forall m :: 0 <= m < k ==> dest[m] == sample[m % |sample|]
      invariant forall m :: k <= m < dest.Length ==> dest[m] == old(dest[m])
    {
      dest[k] := sample[k % |sample|];
      k := k + 1;
    }
  }

  /** gst_audio_format_fill_silence as written: the sample-by-sample loop
      always writes a whole sample, so it writes WrittenAsWritten(f, length)
      bytes, which the buffer must hold. */
  method FillSilenceAsWritten(f: Format, dest: array<bv8>, length: nat)
    requires f != Unknown
    requires WrittenAsWritten(f, length) <= dest.Length
    modifies dest
    ensures forall k :: 0 <= k < WrittenAsWritten(f, length) ==> dest[k] == SilenceByte(f, k)
    ensures forall k :: WrittenAsWritten(f, length) <= k < dest.Length ==> dest[k] == old(dest[k])
  {
    RowSizes(f);
    var bps := SampleBytes(f);
    if SilentAtZero(f) {
      Fill(dest, 0, length);
    } else if bps == 1 {
      Fill(dest, Silence(f)[0], length);
      forall k | 0 <= k < length
        ensures dest[k] == SilenceByte(f, k)
      {
        assert k % 1 == 0;
      }
    } else {
      var sample := Silence(f)[..bps];
      var written := RoundedUp(length, bps);
      assert WrittenAsWritten(f, length) == written;
      WriteWholeSamples(dest, length, sample);
      forall k | 0 <= k < written
        ensures dest[k] == SilenceByte(f, k)
      {
        assert dest[k] == sample[k % bps] == Silence(f)[k % bps];
      }
    }
  }

  /** gst_audio_format_fill_silence as documented: exactly `length` bytes of
      silence, the last sample cut short when `length` is not a multiple of
      bps. */
  method FillSilence(f: Format, dest: array<bv8>, length: nat)
    requires f != Unknown
    requires length <= dest.Length
    modifies dest
    ensures forall k :: 0 <= k < length ==> dest[k] == SilenceByte(f, k)
    ensures forall k :: length <= k < dest.Length ==> dest[k] == old(dest[k])
  {
    RowSizes(f);
    var bps := SampleBytes(f);
    if SilentAtZero(f) {
      Fill(dest, 0, length);
    } else if bps == 1 {
      Fill(dest, Silence(f)[0], length);
      forall k | 0 <= k < length
        ensures dest[k] == SilenceByte(f, k)
      {
        assert k % 1 == 0;
      }
    } else {
      var sample := Silence(f)[..bps];
      WriteCutSamples(dest, length, sample);
      forall k | 0 <= k < length
        ensures dest[k] == SilenceByte(f, k)
      {
        assert dest[k] == sample[k % bps] == Silence(f)[k % bps];
      }
    }
  }

  // ---------------------------------------------------------------------
  // GstAudioInfo

  /** GstAudioFlags */
  datatype AudioFlag = DefaultPositions

  /** `(width * channels) / 8` in C: the bytes of one frame. */
  function FrameBytes(f: Format, channels: int): int
  {
    TruncDiv(Width(f) * channels, 8)
  }

  /** A frame is one sample per channel: since every row's width is a whole
      number of bytes, the C division is exact. */
  lemma FrameIsSamples(f: Format, channels: int)
    requires f != Unknown
    ensures FrameBytes(f, channels) == SampleBytes(f) * channels
  {
    RowSizes(f);
    var n := SampleBytes(f);
    assert Width(f) == 8 * n;
    assert Width(f) * channels == 8 * (n * channels);
    TruncDivBytes(n * channels);
  }

  /** C division of a whole number of bytes' bits by 8 is exact. */
  lemma TruncDivBytes(k: int)
    ensures TruncDiv(8 * k, 8) == k
  {
    if k < 0 {
      assert (-(8 * k)) / 8 == -k;
    }
  }

  /** GstAudioInfo without the channel positions. `finfo` is None for the
      NULL finfo of a cleared info, and otherwise names the row of
      `formats[]` it points at. */
  class AudioInfo {
    var finfo: Option<Format>
    var flags: set<AudioFlag>
    var rate: int
    var channels: int
    var bpf: int

    /** All fields zero, as memset leaves them. */
    predicate Cleared()
      reads this
    {
      finfo == None && flags == {} && rate == 0 && channels == 0 && bpf == 0
    }

    /** A new info, as gst_audio_info_init leaves it. */
    constructor ()
      ensures Cleared()
    {
      finfo := None;
      flags := {};
      rate := 0;
      channels := 0;
      bpf := 0;
    }

    /** gst_audio_info_init */
    method Init()
      modifies this
      ensures Cleared()
    {
      finfo := None;
      flags := {};
      rate := 0;
      channels := 0;
      bpf := 0;
    }

    /** gst_audio_info_set_format: nothing happens for UNKNOWN; otherwise the
        flags are cleared, the row, rate and channels are stored and the
        frame size is worked out from the row's width. */
    method SetFormat(format: Format, rate: int, channels: int)
      modifies this
      ensures format == Unknown ==> unchanged(this)
      ensures format != Unknown ==>
        && finfo == Some(format) && flags == {}
        && this.rate == rate && this.channels == channels
        && bpf == FrameBytes(format, channels)
    {
      if format == Unknown {
        return;
      }
      flags := {};
      finfo := Some(format);
      this.rate := rate;
      this.channels := channels;
      bpf := TruncDiv(Width(format) * channels, 8);
    }
  }

  // ---------------------------------------------------------------------
  // gst_audio_info_convert

  /** GstFormat: the unit a value is counted in. */
  datatype Unit = Undefined | Default | Bytes | Time | Buffers | Percent

  /** The pairs of distinct units convert translates between. */
  predicate Convertible(src: Unit, dest: Unit)
  {
    src != dest && src in {Default, Bytes, Time} && dest in {Default, Bytes, Time}
  }

  /** GST_FRAMES_TO_CLOCK_TIME on gint64 frames and a gint rate, both handed
      to a guint64 parameter, the guint64 result stored in a gint64. */
  function FramesToTime(frames: int, rate: int): (t: int)
    requires IsInt64(frames) && IsInt32(rate)
    ensures IsInt64(t)
  {
    FromU64(FramesToClockTime(ToU64(frames), ToU64(rate)))
  }

  /** GST_CLOCK_TIME_TO_FRAMES on a gint64 time and a gint rate, stored in a
      gint64. */
  function TimeToFrames(time: int, rate: int): (n: int)
    requires IsInt64(time) && IsInt32(rate)
    ensures IsInt64(n)
  {
    FromU64(ClockTimeToFrames(ToU64(time), ToU64(rate)))
  }

  /** gst_audio_info_convert on an info with frame size `bpf` and rate
      `rate`: None where the C function returns FALSE, Some(the value written
      to `dest_val`) where it returns TRUE. The value is copied for equal
      units and for -1; a missing rate or frame size and any pair other than
      the six among bytes, frames (DEFAULT) and time fail. */
  function Convert(bpf: int, rate: int, src: Unit, v: int, dest: Unit): (r: Option<int>)
    requires IsInt32(bpf) && IsInt32(rate) && IsInt64(v)
    ensures src == dest || v == -1 ==> r == Some(v)
    ensures src != dest && v != -1 ==> (r.Some? <==> bpf != 0 && rate != 0 && Convertible(src, dest))
    ensures r.Some? ==> IsInt64(r.value)
  {
    if src == dest || v == -1 then Some(v)
    else if bpf == 0 || rate == 0 then None
    else
      match (src, dest)
      case (Bytes, Time) => Some(FramesToTime(Wrap64(TruncDiv(v, bpf)), rate))
      case (Bytes, Default) => Some(Wrap64(TruncDiv(v, bpf)))
      case (Default, Time) => Some(FramesToTime(v, rate))
      case (Default, Bytes) => Some(Wrap64(v * bpf))
      case (Time, Default) => Some(TimeToFrames(v, rate))
      case (Time, Bytes) => Some(Wrap64(TimeToFrames(v, rate) * bpf))
      case _ => None
  }

  /** Frames to bytes and back is the identity while the byte count fits in
      a gint64. */
  lemma FramesBytesRoundTrip(bpf: int, rate: int, frames: int)
    requires IsInt32(bpf) && IsInt32(rate) && IsInt64(frames)
    requires 0 < bpf && rate != 0 && 0 <= frames && frames * bpf < TwoTo63
    ensures Convert(bpf, rate, Default, frames, Bytes) == Some(frames * bpf)
    ensures Convert(bpf, rate, Bytes, frames * bpf, Default) == Some(frames)
  {
    MulMono(1, bpf, frames);
    DivBracket(frames * bpf, bpf, frames);
  }

  /** Bytes to frames and back rounds down to a whole frame. */
  lemma BytesFramesRoundTrip(bpf: int, rate: int, bytes: int)
    requires IsInt32(bpf) && IsInt32(rate) && IsInt64(bytes)
    requires 0 < bpf && rate != 0 && 0 <= bytes
    ensures Convert(bpf, rate, Bytes, bytes, Default) == Some(bytes / bpf)
    ensures Convert(bpf, rate, Default, bytes / bpf, Bytes) == Some(bytes - bytes % bpf)
  {
    var q := bytes / bpf;
    assert bytes == q * bpf + bytes % bpf;
    MulMono(0, q, bpf);
    MulMono(1, bpf, q);
    assert TruncDiv(bytes, bpf) == q && Wrap64(q) == q;
    assert Wrap64(q * bpf) == q * bpf;
  }

  /** Frames to time and back is the identity when the rate is at most one
      sample per nanosecond and the time fits in a gint64. */
  lemma FramesTimeRoundTrip(bpf: int, rate: int, frames: int)
    requires IsInt32(bpf) && IsInt32(rate) && IsInt64(frames)
    requires bpf != 0 && 0 < rate <= Second && 0 <= frames && frames * Second < TwoTo63
    ensures Convert(bpf, rate, Default, frames, Time) == Some(FramesToClockTime(frames, rate))
    ensures Convert(bpf, rate, Time, FramesToClockTime(frames, rate), Default) == Some(frames)
  {
    FramesRoundTrip(frames, rate);
    ClockTimeBound(frames, rate);
  }

  /** A time computed from frames at a positive rate is at most the frames
      counted in nanoseconds. */
  lemma ClockTimeBound(frames: nat, rate: nat)
    requires 0 < rate && frames * Second <= MaxU64
    ensures FramesToClockTime(frames, rate) <= frames * Second
  {
    var x := frames * Second;
    MulMono(1, rate, x);
    assert (x + 1) * rate == x * rate + rate;
    DivBelow(x + rate / 2, rate, x);
  }

  /** Bytes convert to time through whole frames: the direct conversion
      equals bytes to frames followed by frames to time. */
  lemma BytesTimeThroughFrames(bpf: int, rate: int, bytes: int)
    requires IsInt32(bpf) && IsInt32(rate) && IsInt64(bytes)
    requires 0 < bpf && rate != 0 && 0 <= bytes
    ensures Convert(bpf, rate, Bytes, bytes, Time)
      == Convert(bpf, rate, Default, Convert(bpf, rate, Bytes, bytes, Default).value, Time)
  {
    var q := bytes / bpf;
    assert bytes == q * bpf + bytes % bpf;
    MulMono(0, q, bpf);
    MulMono(1, bpf, q);
    assert TruncDiv(bytes, bpf) == q && Wrap64(q) == q;
  }

  /** Time converts to bytes through whole frames. */
  lemma TimeBytesThroughFrames(bpf: int, rate: int, time: int)
    requires IsInt32(bpf) && IsInt32(rate) && IsInt64(time)
    requires bpf != 0 && rate != 0 && time != -1
    requires TimeToFrames(time, rate) != -1
    ensures Convert(bpf, rate, Time, time, Bytes)
      == Convert(bpf, rate, Default, Convert(bpf, rate, Time, time, Default).value, Bytes)
  {
  }
}
