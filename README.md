# GStreamer base-library cores in Dafny

This project models six small cores of gst-plugins-base and proves properties of them:

- **video resampler** (`gst-libs/gst/video/video-resampler.c`): the tap-table generator. For each output sample it:
  - picks a tap count per method;
  - maps the output centre to a clamped source position and anchors a window of `max_taps` source samples;
  - evaluates the kernel (nearest, linear, bicubic, sinc, Lanczos) and divides the row by its sum;
  - folds taps that fall outside the source back into the window;
  - fills the `offset`, `phase`, `n_taps` and `taps` arrays.

  Weights are `real`. `sin` is a parameter of the model. The table is built in place in arrays by the `Resampler` class and specified row by row by functions of a `Config`.
- **audio formats** (`gst-libs/gst/audio/audio.h`, `audio.c`):
  - the `GstAudioFormat` enum and its native-endian aliases, and the format flag bits;
  - the `formats[]` table and the lookups over it (`build_integer`, `from_string`, `to_string`, `get_info`);
  - `fill_silence`, which writes into a byte array;
  - `GstAudioInfo` (`init`, `set_format`) and `gst_audio_info_convert` between bytes, frames and time.

  gint64/guint64 reinterpretation and C's truncating division are written out.
- **appsink** (`gst-libs/gst/app/gstappsink.c`): the queue bookkeeping, as a sequential state machine on an `AppSink` class.
  - The queue mixes buffers with CAPS and SEGMENT events.
  - `num_buffers` counts the queued buffers, and `render` has a drop-oldest bound.
  - It covers flushing, EOS, preroll and the pulls.
  - A locked section of the C code is one method. Where the C code waits on its condition variable, the model returns a `Wait`/`Blocks` outcome and leaves the state unchanged.
- **fd memory** (`gst-libs/gst/allocators/gstfdmemory.c`):
  - map reference counting on the root memory (`data`, `mmapping_flags`, `mmap_count`);
  - the rule that a new map's protection must be a subset of the existing mapping's;
  - delegation from a share to its root;
  - the `share` offset/size arithmetic, and what `free` asks of the system.

  `mmap` is an argument that either yields an address or fails.
- **video meta** (`gst-libs/gst/video/gstmetavideo.c`):
  - the lookup of the memory block that holds a plane offset;
  - adding a video meta to a buffer, and finding one by id;
  - the offset logic of plane map and unmap.

  Each memory block carries the address that mapping it would yield. Map and unmap report which block they address instead of calling into the core library.

`Wrappers` holds `Option`. `GstCore` holds the `GstMapFlags` bits that two of the cores share.

## Model

| member | source | states |
|---|---|---|
| VideoResampler.Sinc | gst-libs/gst/video/video-resampler.c:94-101 | the removable singularity: 1 at 0 |
| VideoResampler.SincEven | gst-libs/gst/video/video-resampler.c:94-101 | with an odd sine, sinc(-x) = sinc(x) |
| VideoResampler.Envelope | gst-libs/gst/video/video-resampler.c:103-109 | 0 for \|x\| ≥ 1, and 1 at 0 |
| VideoResampler.EnvelopeEven | gst-libs/gst/video/video-resampler.c:103-109 | with an odd sine, the envelope is even |
| VideoResampler.Bicubic | gst-libs/gst/video/video-resampler.c:136-154 | 0 for \|s\| ≥ 2; both pieces give b/6 at \|s\| = 1; (6 - 2b)/6 at 0 |
| VideoResampler.GetTap | gst-libs/gst/video/video-resampler.c:111-191 | a nearest tap is 1; a Lanczos tap is 0 outside its envelope |
| VideoResampler.LinearTapWeight | gst-libs/gst/video/video-resampler.c:117-134 | a linear tap lies in [0, 1] (half-width `(max_taps + 1) / 2` in integer division) |
| VideoResampler.BicubicPartitionOfUnity | gst-libs/gst/video/video-resampler.c:136-154 | the four bicubic weights at a fractional position sum to 1 for every b and c |
| VideoResampler.CubicRowSumsToOne | gst-libs/gst/video/video-resampler.c:156-176 | a 4-tap cubic row of kernel values sums to 1 before normalisation |
| VideoResampler.LinearRowSumsToOne | gst-libs/gst/video/video-resampler.c:117-134 | a 2-tap linear row sums to 1 |
| VideoResampler.NearestIdentity | gst-libs/gst/video/video-resampler.c:111-115 | nearest scaling between equal sizes with no shift maps output j to source j with the single weight 1 |
| VideoResampler.FinalTaps | gst-libs/gst/video/video-resampler.c:405-410 | the clamp compares a guint with a gint, so a negative max-taps option caps nothing; the result is at most in_size and at most the requested count, and otherwise the minimum of the three |
| VideoResampler.Select | gst-libs/gst/video/video-resampler.c:358-403 | each method selects its own kernel; cubic always asks for 4 taps, every other method keeps a non-zero n_taps; only a Lanczos default can come out as 0 |
| VideoResampler.LanczosExplicitTaps | gst-libs/gst/video/video-resampler.c:380-399 | with an explicit n_taps any non-zero envelope is accepted, whatever the sharpness |
| VideoResampler.LanczosDefaultTaps | gst-libs/gst/video/video-resampler.c:380-399 | without options and when not downscaling, Lanczos defaults to 2·ceil(2/1) = 4 taps |
| VideoResampler.TapCountPolicy | gst-libs/gst/video/video-resampler.c:356-410 | max_taps ≤ in_size; defaults for n_taps = 0 are nearest 1, linear 2, sinc 4 and Lanczos 2·ceil(envelope / fx); cubic is always 4; each is capped by the option and by in_size |
| VideoResampler.Configure | gst-libs/gst/video/video-resampler.c:356-410 | the configuration init builds never has more taps than source samples |
| VideoResampler.SourceX | gst-libs/gst/video/video-resampler.c:226-230 | the source position of every output sample is clamped to [0, in_size - 1] |
| VideoResampler.Anchor | gst-libs/gst/video/video-resampler.c:209-232 | xi = floor(x - (max_taps - 1) / 2) puts the window's centre tap inside the source, and each edge fold moves the row by less than its width |
| VideoResampler.RawTaps | gst-libs/gst/video/video-resampler.c:240-243 | tap l of a raw row is `get_tap (params, l, xi, x)` |
| VideoResampler.OffsetInRange | gst-libs/gst/video/video-resampler.c:248-275 | after the folds, 0 ≤ offset[j] and offset[j] + max_taps ≤ in_size, so every tap reads inside the source; the offset is the anchor clamped to [0, in_size - max_taps] |
| VideoResampler.OffsetMonotone | gst-libs/gst/video/video-resampler.c:226-275 | a later output sample never starts earlier in the source |
| VideoResampler.RowSumIsOne | gst-libs/gst/video/video-resampler.c:237-275 | a final row sums to exactly 1 if and only if its raw kernel values have a non-zero sum (no zero-sum guard) |
| VideoResampler.ComputeRawRow | gst-libs/gst/video/video-resampler.c:237-243 | the tap loop stores the raw row and returns its sum |
| VideoResampler.StoreTaps | gst-libs/gst/video/video-resampler.c:240-243 | the tap loop for any `get_tap`: entries base..base+n hold the tabulated taps, `weight` is their left-to-right sum, earlier entries untouched |
| VideoResampler.Position | gst-libs/gst/video/video-resampler.c:226-232 | computes x and xi as SourceX and Anchor specify |
| VideoResampler.ComputeRow | gst-libs/gst/video/video-resampler.c:226-275 | one loop pass leaves row j equal to Row(c, j) and returns Offset(c, j), without touching earlier rows |
| VideoResampler.FillRowAt | gst-libs/gst/video/video-resampler.c:237-275 | raw row, normalisation and folds on the row at `base` give RowAt, and the returned offset is the folded anchor |
| VideoResampler.FillRow | gst-libs/gst/video/video-resampler.c:234-275 | one pass writes row j and entry j of offset, phase (= j) and n_taps (= max_taps), and nothing else of those arrays |
| VideoResampler.FillStep | gst-libs/gst/video/video-resampler.c:219-276 | one pass extends the filled prefix of the table by row j |
| VideoResampler.FillTables | gst-libs/gst/video/video-resampler.c:219-276 | the taps array is the rows laid end to end; offset[j], phase[j] = j and n_taps[j] = max_taps for every j |
| VideoResampler.BuildTables | gst-libs/gst/video/video-resampler.c:214-276 | fresh arrays of out_size × max_taps taps and out_size entries, filled as FillTables states |
| VideoResampler.Resampler.CalculateTaps | gst-libs/gst/video/video-resampler.c:194-277 | the resampler holds the tables of its configuration in fresh arrays |
| VideoResampler.Resampler.Init | gst-libs/gst/video/video-resampler.c:333-417 | FALSE with nothing changed if and only if in_size = 0, out_size = 0 or n_phases ≠ out_size; otherwise the tables of the configured tap count, every window inside the source |
| ResamplerRows.NormalisedRowSum | gst-libs/gst/video/video-resampler.c:237-246 | dividing a finite row by its sum gives sum 1 when the sum is non-zero, and a non-finite row when it is zero |
| ResamplerRows.NormaliseDividesSum | gst-libs/gst/video/video-resampler.c:245-246 | dividing each weight by w divides the row's sum by w |
| ResamplerRows.NormaliseInPlace | gst-libs/gst/video/video-resampler.c:245-246 | the in-place division leaves Normalise of the old row and earlier rows untouched |
| ResamplerRows.SumFinite | gst-libs/gst/video/video-resampler.c:240-243 | a row of finite weights has a finite sum |
| ResamplerRows.SumNonFinite | gst-libs/gst/video/video-resampler.c:245-246 | one non-finite weight makes the row's sum non-finite |
| ResamplerRows.FoldLeftPreservesSum | gst-libs/gst/video/video-resampler.c:248-261 | the left fold keeps the row's sum |
| ResamplerRows.FoldRightPreservesSum | gst-libs/gst/video/video-resampler.c:262-275 | the right fold keeps the row's sum |
| ResamplerRows.EdgeFoldPreservesSum | gst-libs/gst/video/video-resampler.c:248-275 | both folds together keep the row's sum |
| ResamplerRows.EdgeOffsetClamps | gst-libs/gst/video/video-resampler.c:260-274 | offset += sh on the left and -= sh on the right clamp the anchor to [0, in_size - n] |
| ResamplerRows.FoldLeftShape | gst-libs/gst/video/video-resampler.c:248-261 | the left fold is the accumulated tap sh, the taps after it, then sh zeros |
| ResamplerRows.FoldRightShape | gst-libs/gst/video/video-resampler.c:262-275 | the right fold is sh zeros, the taps before n - sh - 1, then the accumulated tap |
| ResamplerRows.AccumulateLeft | gst-libs/gst/video/video-resampler.c:251-253 | tap sh becomes itself plus taps 0..sh-1, added in loop order; nothing else changes |
| ResamplerRows.ShiftLeft | gst-libs/gst/video/video-resampler.c:254-259 | the row moves sh places left and the vacated tail is zero |
| ResamplerRows.MoveLeft | gst-libs/gst/video/video-resampler.c:254-256 | the copying loop, run upwards, reads every source entry before overwriting it |
| ResamplerRows.AccumulateRight | gst-libs/gst/video/video-resampler.c:265-267 | tap n - sh - 1 becomes itself plus the last sh taps |
| ResamplerRows.ShiftRight | gst-libs/gst/video/video-resampler.c:268-273 | the row moves sh places right and the vacated head is zero |
| ResamplerRows.MoveRight | gst-libs/gst/video/video-resampler.c:268-270 | the copying loop, run downwards, reads every source entry before overwriting it |
| ResamplerRows.ZeroRange | gst-libs/gst/video/video-resampler.c:257-259 | the zeroing loop zeroes exactly its range |
| ResamplerRows.FoldLeftInPlace | gst-libs/gst/video/video-resampler.c:248-261 | the in-place left fold leaves FoldLeft of the old row |
| ResamplerRows.FoldRightInPlace | gst-libs/gst/video/video-resampler.c:262-275 | the in-place right fold leaves FoldRight of the old row |
| ResamplerRows.FoldEdges | gst-libs/gst/video/video-resampler.c:248-275 | both edge tests and folds leave EdgeFold of the row and return EdgeOffset of the anchor |
| AudioFormat.TableOrder | gst-libs/gst/audio/audio.h:87-126 | every enum member's value is the index of its own row of `formats[]` |
| AudioFormat.RowValue | gst-libs/gst/audio/audio.c:58-130 | row i of the table is the format whose enum value is i |
| AudioFormat.FlagBits | gst-libs/gst/audio/audio.h:157-230 | INTEGER, FLOAT, SIGNED and COMPLEX are distinct single bits, and each IS_* bit test on a flags word holds exactly when the flag is in the modelled set |
| AudioFormat.NativeName | gst-libs/gst/audio/audio.h:31-35 | an alias such as S16 names the member with the host's LE/BE suffix |
| AudioFormat.NativeEndianness | gst-libs/gst/audio/audio.h:128-141 | an alias has the host's endianness |
| AudioFormat.NativeSampleSize | gst-libs/gst/audio/audio.h:128-141 | the LE and BE members of an alias agree on width and depth |
| AudioFormat.NativeFlags | gst-libs/gst/audio/audio.h:128-141 | the LE and BE members of an alias agree on flags |
| AudioFormat.BpsAgainstWidth | gst-libs/gst/audio/audio.h:291 | BPS is depth >> 3: it covers the stored sample exactly when width equals depth |
| AudioFormat.RowFlags | gst-libs/gst/audio/audio.c:58-130 | every known row is integer xor float, never complex; the signed flag agrees with the name's S |
| AudioFormat.RowSizes | gst-libs/gst/audio/audio.c:58-130 | every known row has a whole-byte width, 0 < depth ≤ width ≤ 64, and no endianness exactly when 8 bits wide |
| AudioFormat.SignedSilenceIsZero | gst-libs/gst/audio/audio.c:58-130 | signed and float rows have all-zero silence |
| AudioFormat.ToString | gst-libs/gst/audio/audio.c:195-204 | a name exactly for 0 < v < 31, and the name is that of the format whose value is v |
| AudioFormat.GetInfo | gst-libs/gst/audio/audio.c:214-221 | a row exactly for 0 < v < 31, and the row describes the format whose value is v |
| AudioFormat.LookupByValue | gst-libs/gst/audio/audio.c:195-221 | to_string and get_info succeed exactly on 0 < v < 31 and return the format's own row |
| AudioFormat.FromString | gst-libs/gst/audio/audio.c:183-193 | returns the format whose table name is the string, or UNKNOWN when there is none |
| AudioFormat.NameKeyInverse | gst-libs/gst/audio/audio.c:58-130 | every table name is recognised by its length and four letters |
| AudioFormat.NameInjective | gst-libs/gst/audio/audio.c:58-130 | no two rows share a name |
| AudioFormat.StringRoundTrip | gst-libs/gst/audio/audio.c:183-204 | from_string(to_string(f)) = f for every known format |
| AudioFormat.BuildIntegerAsWritten | gst-libs/gst/audio/audio.c:144-172 | as written: the first integer row with equal width and depth, compatible endianness and (when asked) the signed flag, or UNKNOWN |
| AudioFormat.UnsignedRequestGivesSigned | gst-libs/gst/audio/audio.c:165-167 | as written, (FALSE, LITTLE_ENDIAN, 16, 16) gives the signed S16LE |
| AudioFormat.BuildInteger | gst-libs/gst/audio/audio.c:144-172 | corrected: the same search with the sign matched in both directions |
| AudioFormat.EarlierRowsReject | gst-libs/gst/audio/audio.c:150-170 | the loop invariant of the table scan: no earlier format accepts |
| AudioFormat.NoRowAccepts | gst-libs/gst/audio/audio.c:150-171 | a scan that finds nothing means no format accepts |
| AudioFormat.TraitsKeyInverse | gst-libs/gst/audio/audio.c:58-130 | every integer row is determined by its sign, endianness, width and depth; only 8-bit rows have no endianness |
| AudioFormat.TraitsInjective | gst-libs/gst/audio/audio.c:58-130 | two integer rows that the strict test cannot tell apart are the same row |
| AudioFormat.BuildIntegerInverse | gst-libs/gst/audio/audio.c:144-172 | the corrected build_integer maps the traits of every integer format back to that format |
| Audio.ScaleRound | gst-libs/gst/audio/audio.h:382-393 | the result fits a guint64 |
| Audio.FramesToClockTime | gst-libs/gst/audio/audio.h:382-383 | the time nearest to frames/rate seconds, halves up, when it fits a guint64 |
| Audio.ClockTimeToFrames | gst-libs/gst/audio/audio.h:392-393 | the frame count nearest to time·rate/GST_SECOND, halves up, when it fits a guint64 |
| Audio.ScaleRoundNearest | gst-libs/gst/audio/audio.h:382-393 | the unsaturated scale is the integer nearest to val·num/denom, halves up |
| Audio.FramesRoundTrip | gst-libs/gst/audio/audio.h:382-393 | CLOCK_TIME_TO_FRAMES(FRAMES_TO_CLOCK_TIME(f, rate), rate) = f for 0 < rate ≤ GST_SECOND |
| Audio.ClockTimeBound | gst-libs/gst/audio/audio.h:382-383 | a frame count's clock time is at most the frame count in nanoseconds |
| Audio.SilencePeriodic | gst-libs/gst/audio/audio.c:240-256 | filled silence repeats every sample |
| Audio.SilenceOverrun | gst-libs/gst/audio/audio.c:252-255 | as written, 3 bytes of U16LE silence write 4 bytes |
| Audio.Fill | gst-libs/gst/audio/audio.c:243 | memset: the first `length` bytes hold the byte and the rest is untouched |
| Audio.WriteSample | gst-libs/gst/audio/audio.c:253-254 | the inner loop copies one silent sample to offset i and nothing else |
| Audio.WriteWholeSamples | gst-libs/gst/audio/audio.c:252-255 | the outer loop writes whole samples up to the first multiple of bps at or past `length` |
| Audio.WriteCutSamples | gst-libs/gst/audio/audio.c:252-255 | the loop stopped at `length` writes exactly `length` bytes of the repeated sample |
| Audio.FillSilenceAsWritten | gst-libs/gst/audio/audio.c:231-259 | as written: zeros for signed and float rows; otherwise byte k is silence[k mod bps], over `length` rounded up to whole samples |
| Audio.FillSilence | gst-libs/gst/audio/audio.c:231-259 | corrected: exactly `length` bytes of the same silence, nothing past them |
| Audio.FrameIsSamples | gst-libs/gst/audio/audio.c:300 | bpf = width·channels/8 is exactly bytes per sample times channels |
| Audio.AudioInfo.constructor | gst-libs/gst/audio/audio.c:268-274 | a new info is all zero |
| Audio.AudioInfo.Init | gst-libs/gst/audio/audio.c:268-274 | init clears every field |
| Audio.AudioInfo.SetFormat | gst-libs/gst/audio/audio.c:285-301 | UNKNOWN changes nothing; otherwise flags are cleared, row, rate and channels are stored, and bpf = width·channels/8 |
| Audio.Convert | gst-libs/gst/audio/audio.c:458-532 | equal units or -1 copy the value; otherwise it succeeds exactly when bpf ≠ 0, rate ≠ 0 and the pair is among bytes, frames and time |
| Audio.FramesBytesRoundTrip | gst-libs/gst/audio/audio.c:489-503 | frames → bytes → frames is the identity while the bytes fit |
| Audio.BytesFramesRoundTrip | gst-libs/gst/audio/audio.c:489-503 | bytes → frames → bytes rounds down to a whole frame |
| Audio.FramesTimeRoundTrip | gst-libs/gst/audio/audio.c:497-513 | frames → time → frames is the identity for rates up to GST_SECOND |
| Audio.BytesTimeThroughFrames | gst-libs/gst/audio/audio.c:484-500 | bytes → time equals bytes → frames → time |
| Audio.TimeBytesThroughFrames | gst-libs/gst/audio/audio.c:510-517 | time → bytes equals time → frames → bytes |
| App.Pop | gst-libs/gst/app/gstappsink.c:641-683 | popping returns the oldest buffer, and the rest keeps every later buffer in order |
| App.PopSuffix | gst-libs/gst/app/gstappsink.c:647-680 | popping removes items from the head of the queue only |
| App.PopLayout | gst-libs/gst/app/gstappsink.c:647-680 | the queue is a run of events, the returned buffer, then what is left |
| App.PopActivates | gst-libs/gst/app/gstappsink.c:657-677 | afterwards last_caps and last_segment are those of the last CAPS and SEGMENT events before the buffer |
| App.DropOldest | gst-libs/gst/app/gstappsink.c:710-718 | n drops remove exactly the n oldest buffers |
| App.DropOldestSuffix | gst-libs/gst/app/gstappsink.c:710-718 | dropping removes items from the head only |
| App.RenderedBuffers | gst-libs/gst/app/gstappsink.c:710-741 | after render the buffers are the old ones minus the dropped oldest, plus the new one last |
| App.AppSink.IsEos | gst-libs/gst/app/gstappsink.c:884-915 | a stopped sink is at EOS; a started one exactly when EOS was received and no buffer is left in the queue |
| App.AppSink.constructor | gst-libs/gst/app/gstappsink.c:348-363 | a fresh sink: empty queue, no counts, caps, preroll or flags |
| App.AppSink.FlushUnlocked | gst-libs/gst/app/gstappsink.c:499-512 | not EOS, no preroll, empty queue, num_buffers = 0 |
| App.AppSink.Start | gst-libs/gst/app/gstappsink.c:514-528 | not flushing, started, a fresh TIME segment |
| App.AppSink.Stop | gst-libs/gst/app/gstappsink.c:530-546 | flushing, stopped, flushed, no caps remembered; the sink then reports EOS |
| App.AppSink.SetCapsEvent | gst-libs/gst/app/gstappsink.c:548-561 | a CAPS item is queued and remembered for preroll; num_buffers still counts the queued buffers |
| App.AppSink.HandleEvent | gst-libs/gst/app/gstappsink.c:563-605 | SEGMENT is queued; EOS sets is_eos; FLUSH_STOP flushes; other events change nothing; the count stays right |
| App.AppSink.Preroll | gst-libs/gst/app/gstappsink.c:607-639 | FLUSHING with nothing changed while flushing, otherwise the buffer becomes the preroll |
| App.AppSink.DequeueBuffer | gst-libs/gst/app/gstappsink.c:641-683 | the loop pops as Pop specifies and num_buffers drops by one |
| App.AppSink.Render | gst-libs/gst/app/gstappsink.c:685-764 | FLUSHING or a wait with nothing changed; otherwise the oldest buffers are dropped as needed, the buffer is appended, and num_buffers ≤ max_buffers when bounded |
| App.AppSink.SetCaps | gst-libs/gst/app/gstappsink.c:823-843 | the caps property is set |
| App.AppSink.SetEmitSignals | gst-libs/gst/app/gstappsink.c:927-938 | the emit-signals property is set |
| App.AppSink.SetMaxBuffers | gst-libs/gst/app/gstappsink.c:976-991 | the bound is set and nothing is dropped |
| App.AppSink.SetDrop | gst-libs/gst/app/gstappsink.c:1027-1042 | the drop property is set |
| App.AppSink.PullPreroll | gst-libs/gst/app/gstappsink.c:1095-1142 | a sample of the preroll buffer exactly when started with a preroll; NULL exactly when stopped or at EOS without one; nothing is consumed |
| App.AppSink.PullSample | gst-libs/gst/app/gstappsink.c:1164-1214 | NULL exactly when is_eos holds (gstappsink.c:884-915); a sample exactly when started with a queued buffer, which is then popped with the caps and segment active after it |
| FdMemory.ProtOf | gst-libs/gst/allocators/gstfdmemory.c:64-65 | READ gives PROT_READ and WRITE gives PROT_WRITE |
| FdMemory.SubsetTest | gst-libs/gst/allocators/gstfdmemory.c:72 | the bit test (mmapping_flags & prot) == prot is the subset test |
| FdMemory.MapRoot | gst-libs/gst/allocators/gstfdmemory.c:63-106 | map keeps the state consistent; a handed-out mapping is the stored one, grants the requested protection and has one more reference; a failed map changes nothing |
| FdMemory.UnmapRoot | gst-libs/gst/allocators/gstfdmemory.c:121-131 | unmap keeps the state consistent, drops one reference unless KEEP_MAPPED, and never moves or reprotects a live mapping |
| FdMemory.MapSucceeds | gst-libs/gst/allocators/gstfdmemory.c:69-102 | an existing mapping is shared exactly when it grants the requested protection; a new one needs fd ≠ -1 and a successful mmap |
| FdMemory.MapUnmapRoundTrip | gst-libs/gst/allocators/gstfdmemory.c:53-133 | a successful map followed by an unmap restores the state |
| FdMemory.KeepMappedStays | gst-libs/gst/allocators/gstfdmemory.c:121-122 | under KEEP_MAPPED unmap changes nothing |
| FdMemory.ShareOverrun | gst-libs/gst/allocators/gstfdmemory.c:150-157 | as written, share(0, -1) of a 50-byte share at offset 10 of a 100-byte memory ends 10 bytes past maxsize |
| FdMemory.SharedRegionInBounds | gst-libs/gst/allocators/gstfdmemory.c:150-157 | corrected, a share of a region inside a memory stays inside it |
| FdMemory.SharedSizeAgrees | gst-libs/gst/allocators/gstfdmemory.c:150-151 | the as-written and corrected size rules agree exactly when the size is not -1 or the memory's size equals maxsize |
| FdMemory.FdMemory.New | gst-libs/gst/allocators/gstfdmemory.c:183-204 | a root with maxsize = size, offset 0, the given flags and fd, not mapped |
| FdMemory.FdMemory.ShareOf | gst-libs/gst/allocators/gstfdmemory.c:153-160 | the zero-filled sub-memory with the given fields, not mapped |
| FdMemory.FdMemory.Map | gst-libs/gst/allocators/gstfdmemory.c:53-110 | a share maps through its root; the root's state and the result are MapRoot of the old state |
| FdMemory.FdMemory.MapOwn | gst-libs/gst/allocators/gstfdmemory.c:63-106 | on the root: the state and the result are MapRoot of the old state, with the bit test of line 72 |
| FdMemory.FdMemory.Unmap | gst-libs/gst/allocators/gstfdmemory.c:112-133 | a share unmaps through its root; the root's state is UnmapRoot of the old state |
| FdMemory.FdMemory.ShareRegion | gst-libs/gst/allocators/gstfdmemory.c:146-162 | a read-only share under the root with the same fd, maxsize and align, at offset mem.offset + offset, not mapped |
| FdMemory.FdMemory.ShareAsWritten | gst-libs/gst/allocators/gstfdmemory.c:135-166 | as written: a read-only share under the root with the same fd, maxsize and align; size -1 becomes maxsize - offset, so the share ends at this memory's offset past maxsize, and past maxsize whenever that offset is positive |
| FdMemory.FdMemory.Share | gst-libs/gst/allocators/gstfdmemory.c:135-166 | corrected: the same read-only share with size -1 meaning size - offset; a share of a region inside the memory stays inside it |
| FdMemory.FdMemory.Free | gst-libs/gst/allocators/gstfdmemory.c:32-51 | munmap exactly when mapped, a warning unless KEEP_MAPPED, close exactly for a root with fd ≥ 0 |
| MetaVideo.Locate | gst-libs/gst/video/gstmetavideo.c:141-162 | the block holding an offset and the offset inside it; none exactly when the offset is at least the total size |
| MetaVideo.LocateUnique | gst-libs/gst/video/gstmetavideo.c:148-160 | the block whose range holds the offset is the one found |
| MetaVideo.FindMemForOffset | gst-libs/gst/video/gstmetavideo.c:141-162 | the loop finds the first block whose size exceeds the remaining offset and leaves it reduced by the earlier blocks' sizes; none leaves the offset minus the total |
| MetaVideo.MapPlane | gst-libs/gst/video/gstmetavideo.c:197-205 | the plane keeps its stride; it is mapped in a block exactly when its offset is below the buffer's total size, and otherwise the leftover is the offset minus that total |
| MetaVideo.UnmapPlane | gst-libs/gst/video/gstmetavideo.c:232-236 | a block is unmapped exactly when the offset is below the buffer's total size, and it is one of the buffer's blocks |
| MetaVideo.MapUnmapRoundTrip | gst-libs/gst/video/gstmetavideo.c:196-236 | a plane inside the buffer maps to its block's base plus the in-block offset, and unmapping that address hands the block its base back |
| MetaVideo.VideoMeta.New | gst-libs/gst/video/gstmetavideo.c:122-138 | id 0, the given fields, and the first n_planes offsets and strides copied |
| MetaVideo.CopyPlanes | gst-libs/gst/video/gstmetavideo.c:133-137 | the copy loop copies exactly the first n entries |
| MetaVideo.AddMetaVideoFull | gst-libs/gst/video/gstmetavideo.c:114-139 | a new meta at the head of the buffer's list, with id 0, the given fields and copied planes |
| MetaVideo.GetMetaVideoId | gst-libs/gst/video/gstmetavideo.c:51-66 | the first video meta in list order whose id matches, or NULL exactly when none does |
| MetaVideo.VideoMeta.Map | gst-libs/gst/video/gstmetavideo.c:176-206 | refused exactly for a missing plane, no buffer, or a write to an unwritable buffer; otherwise the plane's stride and its block base plus the offset inside the block, the offset first cut to a guint |
| MetaVideo.VideoMeta.Unmap | gst-libs/gst/video/gstmetavideo.c:218-239 | refused exactly for a missing plane or no buffer; otherwise the block found again and data minus the in-block offset |

## Left out

- Floating point: weights are exact reals. IEEE rounding and the values of `sin` are not modelled; `sin` is a parameter.
- The Lanczos parameters `fx`, `ex` and `dx` (video-resampler.c:382-397) are computed on reals, so the model needs a non-zero envelope (for `ex = fx / envelope`). Only when n_taps is 0 is `dx` used; then fx must be non-zero and `2 * dx` must lie in the guint range, where C's double-to-guint conversion is defined (`LanczosDefined`). The infinities and NaN that C computes otherwise are not modelled.
- `resampler_dump` and `gst_video_resampler_clear` are not modelled: the first is compiled out and the second only frees memory. The unused `flags` argument of init is dropped.
- The non-finite weights that a zero row sum produces are one `NonFinite` value; infinities and NaN are not told apart.
- appsink:
  - Waiting on the condition variable, and the unlock/wait_preroll interplay, are not modelled; waits are outcomes.
  - Signals, callbacks, GObject properties, the URI handler and the getters are not modelled.
  - The pad-caps fallback of render (gstappsink.c:700-705) is not modelled, because it reads the external pad.
- App.AppSink.Render: the drop loop is modelled; the buffer reference counting around it is not.
- fd memory:
  - `mmap`, `munmap`, `close` and the mutex are not modelled. `mmap` is an argument, and `free` returns what it would ask of the system.
  - MAP_PRIVATE/MAP_SHARED only choose mmap flags, and are not modelled.
  - The map's `maxsize` argument is unused by the C code and is dropped.
- FdMemory.FdMemory.Map: `mmap_count` is an unbounded integer, so gint overflow is not modelled.
- FdMemory.FdMemory.Share: gssize/gsize wrap-around of the offset and size arithmetic is not modelled.
- Video meta:
  - `gst_memory_map`, `gst_memory_unmap` and the block lookup of the core library are not modelled. Each block carries the address a map yields, and map/unmap return which block they address.
  - When no block holds a plane's offset, the C code passes a NULL block to the core library. The model reports this as `NoBlock`/`NoBlockUnmap` with the leftover offset.
  - `gst_buffer_add_meta` (gstbuffer.c) is not part of this model. The model assumes that it puts the new meta at the head of the buffer's list.
  - `gst_buffer_add_meta_video` needs `gst_video_info_set_format`, which is not part of this model. `gst_meta_video_get_info` only registers the type. Neither is modelled.
- Audio:
  - `gst_audio_info_from_caps`, `to_caps` and `gst_audio_buffer_clip` are not modelled.
  - Channel positions in GstAudioInfo are not modelled.
  - Overflow of `width * channels` in `set_format` is not modelled.
- Audio.ScaleRoundNearest: `gst_util_uint64_scale_round` (gstutils.c) is not part of this model. It is modelled by its documented contract: round half up, G_MAXUINT64 for a zero denominator or an overflowing result.
- Audio.FillSilence: the UNKNOWN row (width 0) would make the C loop step by 0 forever, so the model requires a known format.
- AudioFormat.FromString: string comparison is on `seq<char>`, with no encoding.
- VideoResampler.Resampler.Init: a Lanczos init with a zero envelope, or with n_taps 0 and a default tap count outside the guint range, is excluded (see above).

## Findings

| source | as written | input that shows it | evidently intended | confidence | as-written member | corrected member |
|---|---|---|---|---|---|---|
| gst-libs/gst/audio/audio.c:165-167 | `sign == FALSE` does not exclude signed rows | build_integer(FALSE, G_LITTLE_ENDIAN, 16, 16) returns S16LE | an unsigned request returns the unsigned format (U16LE) | high, not executed | AudioFormat.UnsignedRequestGivesSigned | AudioFormat.BuildIntegerInverse |
| gst-libs/gst/audio/audio.c:252-255 | the multi-byte loop writes whole samples, past `length` | fill_silence(U16LE, dest, 3) writes 4 bytes | exactly `length` bytes, the last sample cut short | high, not executed | Audio.SilenceOverrun | Audio.FillSilence |
| gst-libs/gst/allocators/gstfdmemory.c:150-151 | size -1 means `maxsize - offset`, ignoring the memory's own offset and size | share(0, -1) of a 50-byte share at offset 10 of a 100-byte memory ends at byte 110 | size -1 means the rest of the memory (`size - offset`) | medium, not executed | FdMemory.ShareOverrun | FdMemory.SharedRegionInBounds |
