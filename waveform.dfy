/**
  PCM audio as the synthesis endpoints see it: the parameters of a WAV
  stream, the frames read from it, the silence inserted between sentences
  (`build_silence`) and the byte stream the writer accumulates.
 */
module Waveform {
  newtype byte = x: int | 0 <= x < 256

  type Positive = n: int | n >= 1 witness 1

  /**
    `wave` parameters: the reader refuses zero channels or a zero sample
    width, so those two are positive; a zero frame rate is read as is.
   */
  datatype Format = Format(nchannels: Positive, sampwidth: Positive, framerate: nat)

  /** One decoded WAV chunk: its parameters, `getnframes()` and `readframes(...)`. */
  datatype Wave = Wave(format: Format, nframes: nat, frames: seq<byte>)

  /** Bytes per frame. */
  function FrameSize(f: Format): (n: Positive)
    ensures n >= f.nchannels && n >= f.sampwidth
  {
    Mul(f.nchannels, f.sampwidth)
  }

  function Mul(a: Positive, b: Positive): (n: Positive)
    ensures n == a * b && n >= a && n >= b
  {
    PositiveProduct(a, b);
    a * b
  }

  lemma PositiveProduct(a: Positive, b: Positive)
    ensures a * b >= a && a * b >= b
  {
    assert a * b == a * (b - 1) + a;
    assert a * b == (a - 1) * b + b;
  }

  /** The writer's own checks when its parameters are set from the first chunk. */
  predicate WriterAccepts(f: Format) {
    f.sampwidth <= 4 && f.framerate > 0
  }

  /** Python's `int(x)` on a float: truncation toward zero. */
  function Trunc(x: real): (n: int)
    ensures x >= 0.0 ==> n >= 0 && n as real <= x < n as real + 1.0
    ensures x < 0.0 ==> n <= 0 && n as real - 1.0 < x <= n as real
  {
    if x >= 0.0 then x.Floor else -((-x).Floor)
  }

  /** `s * k` on bytes: `k` copies, none when `k` is not positive. */
  function Repeat(s: seq<byte>, k: int): (r: seq<byte>)
    ensures |r| == (if k <= 0 then 0 else k * |s|)
    ensures forall i :: 0 <= i < |r| ==> r[i] in s
    decreases if k <= 0 then 0 else k
  {
    if k <= 0 then [] else Repeat(s, k - 1) + s
  }

  /** `int(framerate * duration)`: the frame count `build_silence` asks for. */
  function SilentFrames(duration: real, f: Format): int
  {
    Trunc(f.framerate as real * duration)
  }

  /** `build_silence(duration, params)`: `b'\x00' * frame_count * n_channels * sampwidth`. */
  function BuildSilence(duration: real, f: Format): (r: seq<byte>)
    ensures var n := SilentFrames(duration, f);
      |r| == (if n <= 0 then 0 else n * FrameSize(f))
    ensures forall i :: 0 <= i < |r| ==> r[i] == 0
  {
    var n := SilentFrames(duration, f);
    var r := Repeat(Repeat(Repeat([0], n), f.nchannels), f.sampwidth);
    assert n > 0 ==> |r| == n * FrameSize(f) by {
      if n > 0 {
        assert |r| == (n * f.nchannels) * f.sampwidth;
        assert (n * f.nchannels) * f.sampwidth == n * (f.nchannels * f.sampwidth);
      }
    }
    r
  }

  /**
    The silence lasts the requested duration, rounded down to whole frames:
    its frame count `n` satisfies `n / framerate <= duration < (n + 1) / framerate`.
   */
  lemma SilenceSeconds(duration: real, f: Format)
    requires duration >= 0.0 && f.framerate > 0
    ensures var r := BuildSilence(duration, f);
      var n := |r| / FrameSize(f);
      |r| % FrameSize(f) == 0 &&
      n as real <= f.framerate as real * duration < (n + 1) as real
  {
    var r := BuildSilence(duration, f);
    var n := SilentFrames(duration, f);
    assert f.framerate as real * duration >= 0.0;
    if n > 0 {
      assert |r| == n * FrameSize(f);
      DivExact(n, FrameSize(f));
    }
  }

  lemma DivExact(n: int, m: Positive)
    ensures (n * m) / m == n && (n * m) % m == 0
  {
    var q, r := (n * m) / m, (n * m) % m;
    assert (n - q) * m == r by {
      assert n * m == q * m + r;
      assert (n - q) * m == n * m - q * m;
    }
    MulSign(n - q, m);
  }

  lemma MulSign(a: int, m: int)
    requires m >= 1
    ensures a >= 1 ==> a * m >= m
    ensures a <= -1 ==> a * m <= -m
  {
    if a >= 1 {
      assert a * m == (a - 1) * m + m;
    } else if a <= -1 {
      assert a * m == (a + 1) * m - m;
    }
  }

  /** No silence for a duration that is zero or negative. */
  lemma NoSilenceForNonPositive(duration: real, f: Format)
    requires duration <= 0.0
    ensures BuildSilence(duration, f) == []
  {
    assert f.framerate as real * duration <= 0.0;
  }

  // ---------------------------------------------------------------------
  // The written stream

  /** The chunks written in order, with `gap` before every chunk but the first. */
  function Stitch(chunks: seq<seq<byte>>, gap: seq<byte>): seq<byte>
    decreases |chunks|
  {
    if |chunks| == 0 then []
    else if |chunks| == 1 then chunks[0]
    else Stitch(chunks[..|chunks| - 1], gap) + gap + chunks[|chunks| - 1]
  }

  function TotalLength(chunks: seq<seq<byte>>): nat
    decreases |chunks|
  {
    if chunks == [] then 0 else TotalLength(chunks[..|chunks| - 1]) + |chunks[|chunks| - 1]|
  }

  /** Where chunk `i` starts in the stitched stream. */
  function ChunkStart(chunks: seq<seq<byte>>, gap: seq<byte>, i: nat): (n: nat)
    requires i <= |chunks|
    ensures i > 0 ==> n >= |gap|
  {
    AtLeastOnce(i, |gap|);
    TotalLength(chunks[..i]) + i * |gap|
  }

  lemma AtLeastOnce(i: nat, g: nat)
    ensures i > 0 ==> i * g >= g
  {
    if i > 0 {
      assert i * g == (i - 1) * g + g;
    }
  }

  lemma {:induction false} StitchLength(chunks: seq<seq<byte>>, gap: seq<byte>)
    requires chunks != []
    ensures |Stitch(chunks, gap)| == TotalLength(chunks) + (|chunks| - 1) * |gap|
    decreases |chunks|
  {
    var n := |chunks|;
    if n == 1 {
      assert chunks[..0] == [];
    } else {
      StitchLength(chunks[..n - 1], gap);
      assert (n - 1) * |gap| == (n - 2) * |gap| + |gap|;
    }
  }

  /** Writing one more chunk appends the gap (unless it is the first) and the chunk. */
  lemma StitchAppend(chunks: seq<seq<byte>>, chunk: seq<byte>, gap: seq<byte>)
    ensures Stitch(chunks + [chunk], gap) == if chunks == [] then chunk else Stitch(chunks, gap) + gap + chunk
  {
    assert (chunks + [chunk])[..|chunks|] == chunks;
  }

  /** Chunk `i` sits at `ChunkStart(i)` in the stitched stream. */
  lemma {:induction false} StitchChunkAt(chunks: seq<seq<byte>>, gap: seq<byte>, i: nat)
    requires i < |chunks|
    ensures ChunkStart(chunks, gap, i) + |chunks[i]| <= |Stitch(chunks, gap)|
    ensures Stitch(chunks, gap)[ChunkStart(chunks, gap, i)..ChunkStart(chunks, gap, i) + |chunks[i]|] == chunks[i]
    decreases |chunks|
  {
    var n := |chunks|;
    var start := ChunkStart(chunks, gap, i);
    if n == 1 {
      assert chunks[..0] == [];
    } else {
      var init := chunks[..n - 1];
      var front := Stitch(init, gap);
      var whole := Stitch(chunks, gap);
      assert whole == front + gap + chunks[n - 1];
      StitchLength(init, gap);
      if i < n - 1 {
        StitchChunkAt(init, gap, i);
        assert init[..i] == chunks[..i];
        assert start == ChunkStart(init, gap, i);
        assert whole[start..start + |chunks[i]|] == front[start..start + |chunks[i]|];
      } else {
        assert chunks[..i] == init;
        assert i * |gap| == (i - 1) * |gap| + |gap|;
        assert start == |front| + |gap|;
      }
    }
  }

  /** Every chunk but the first is preceded by the gap. */
  lemma {:induction false} StitchGapBefore(chunks: seq<seq<byte>>, gap: seq<byte>, i: nat)
    requires 0 < i < |chunks|
    ensures |gap| <= ChunkStart(chunks, gap, i) <= |Stitch(chunks, gap)|
    ensures Stitch(chunks, gap)[ChunkStart(chunks, gap, i) - |gap|..ChunkStart(chunks, gap, i)] == gap
    decreases |chunks|
  {
    var n := |chunks|;
    var start := ChunkStart(chunks, gap, i);
    var init := chunks[..n - 1];
    var front := Stitch(init, gap);
    var whole := Stitch(chunks, gap);
    assert whole == front + gap + chunks[n - 1];
    StitchLength(init, gap);
    StitchChunkAt(chunks, gap, i);
    if i < n - 1 {
      StitchGapBefore(init, gap, i);
      assert init[..i] == chunks[..i];
      assert start == ChunkStart(init, gap, i);
      assert whole[start - |gap|..start] == front[start - |gap|..start];
    } else {
      assert chunks[..i] == init;
      assert i * |gap| == (i - 1) * |gap| + |gap|;
      assert start == |front| + |gap|;
    }
  }
}
