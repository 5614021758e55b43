/*
 * What the output-stream callback of src/main.rs writes, as functions of the
 * decoded clip, the on/off flag, the volume and the frame cursor.
 *
 * The callback cuts the output buffer into chunks of `channels` slots (the
 * DECODED channel count), fills each chunk from the frame at the cursor, and
 * advances the cursor by one frame per chunk, wrapping to 0 at the end of the
 * clip. Samples and the volume are modelled as reals and scaling as real
 * multiplication.
 */
module Playback {

  /** The decoded clip: interleaved samples and the decoder's channel count. */
  datatype Clip = Clip(samples: seq<real>, channels: nat)
  {
    /** The callback chunks by `channels`, which must therefore be positive. */
    predicate Valid()
    {
      channels > 0
    }

    /** Number of whole frames; a trailing partial frame is never read. */
    function Frames(): nat
      requires Valid()
    {
      |samples| / channels
    }
  }

  /** What a muted slot holds. */
  const Silence: real := 0.0

  /** A source sample at the given volume. */
  function Scale(sample: real, volume: real): real
  {
    sample * volume
  }

  /**
   * The cursor values the callback can hold: below the frame count, or 0 when
   * the clip has no whole frame (the reset then fires after every chunk).
   */
  predicate CursorOk(index: nat, frames: nat)
  {
    index < frames || index == 0
  }

  /** The cursor after one chunk: incremented, then reset on reaching the frame count. */
  function Advance(index: nat, frames: nat): (r: nat)
    ensures CursorOk(r, frames)
    ensures index < frames ==> r == (index + 1) % frames
  {
    if index + 1 >= frames then 0 else index + 1
  }

  /** The cursor after `k` chunks. */
  function AdvanceN(index: nat, k: nat, frames: nat): (r: nat)
    ensures CursorOk(index, frames) ==> CursorOk(r, frames)
    ensures frames > 0 && index < frames ==> r < frames
    decreases k
  {
    if k == 0 then index else AdvanceN(Advance(index, frames), k - 1, frames)
  }

  /** Advancing `k + 1` times is advancing `k` times and then once more. */
  lemma {:induction false} AdvanceNLast(index: nat, k: nat, frames: nat)
    ensures AdvanceN(index, k + 1, frames) == Advance(AdvanceN(index, k, frames), frames)
    decreases k
  {
    if k > 0 {
      AdvanceNLast(Advance(index, frames), k - 1, frames);
    }
  }

  /** Number of chunks `channels` slots wide (the last possibly shorter) a buffer of `n` slots is cut into. */
  function Chunks(n: nat, channels: nat): (r: nat)
    requires channels > 0
    decreases n
  {
    if n == 0 then 0 else 1 + Chunks(n - (if n < channels then n else channels), channels)
  }

  /** The number of slots `k` whole frames of `channels` slots take up. */
  function Slots(k: nat, channels: nat): nat
  {
    if k == 0 then 0 else channels + Slots(k - 1, channels)
  }

  /** The chunk count is `n / channels` rounded up. */
  lemma {:induction false} ChunksCeil(n: nat, channels: nat)
    requires channels > 0
    ensures Chunks(n, channels) == (n + channels - 1) / channels
    decreases n
  {
    if n == 0 {
      DivModUnique(channels - 1, channels, 0, channels - 1);
    } else if n < channels {
      ChunksCeil(0, channels);
      DivModUnique(n + channels - 1, channels, 1, n - 1);
    } else {
      ChunksCeil(n - channels, channels);
      DivShift(n - channels + channels - 1, channels);
    }
  }

  /** Channel slot `i` of the frame at a cursor below the frame count lies inside the clip. */
  lemma FrameReadInBounds(clip: Clip, index: nat, i: nat)
    requires clip.Valid() && index < clip.Frames() && i < clip.channels
    ensures index * clip.channels + i < |clip.samples|
  {
    var c, f := clip.channels, clip.Frames();
    assert (index + 1) * c <= f * c by {
      MulMonotone(index + 1, f, c);
    }
    assert f * c <= |clip.samples|;
  }

  lemma MulMonotone(a: nat, b: nat, c: nat)
    requires a <= b
    ensures a * c <= b * c
  {
  }

  /** The value written into slot `i` of a chunk filled from the frame at `index`. */
  function Out(clip: Clip, isOn: bool, volume: real, index: nat, i: nat): real
    requires clip.Valid() && i < clip.channels
    requires isOn ==> index < clip.Frames()
  {
    if !isOn then Silence
    else
      FrameReadInBounds(clip, index, i);
      Scale(clip.samples[index * clip.channels + i], volume)
  }

  /** The `m` slots of one chunk filled from the frame at `index`. */
  function Chunk(clip: Clip, isOn: bool, volume: real, index: nat, m: nat): (r: seq<real>)
    requires clip.Valid() && m <= clip.channels
    requires isOn ==> index < clip.Frames()
    ensures |r| == m
  {
    seq(m, i requires 0 <= i < m => Out(clip, isOn, volume, index, i))
  }

  /** The `n` slots one callback writes when it starts at cursor `index`. */
  function Render(clip: Clip, isOn: bool, volume: real, index: nat, n: nat): (r: seq<real>)
    requires clip.Valid()
    requires n > 0 && isOn ==> index < clip.Frames()
    ensures |r| == n
    decreases n
  {
    if n == 0 then []
    else
      var m := if n < clip.channels then n else clip.channels;
      Chunk(clip, isOn, volume, index, m) + Render(clip, isOn, volume, Advance(index, clip.Frames()), n - m)
  }

  /** The cursor wraps: after `k` chunks it is the start plus `k`, modulo the frame count. */
  lemma {:induction false} AdvanceNMod(index: nat, k: nat, frames: nat)
    requires index < frames
    ensures AdvanceN(index, k, frames) == (index + k) % frames
    decreases k
  {
    if k > 0 {
      var next := Advance(index, frames);
      AdvanceNMod(next, k - 1, frames);
      if index + 1 == frames {
        assert (next + (k - 1)) % frames == (index + k) % frames by {
          ModShift(k - 1, frames);
        }
      }
    }
  }

  /** Quotient and remainder are determined by any decomposition x == q * m + r with 0 <= r < m. */
  lemma DivModUnique(x: int, m: int, q: int, r: int)
    requires m > 0 && 0 <= r < m && x == q * m + r
    ensures x / m == q && x % m == r
  {
    var q', r' := x / m, x % m;
    assert (q - q') * m == r' - r;
    assert q == q' by {
      if q - q' >= 1 {
        MulMonotone(1, q - q', m);
        assert false;
      } else if q' - q >= 1 {
        MulMonotone(1, q' - q, m);
        assert false;
      }
    }
  }

  lemma ModShift(x: nat, m: nat)
    requires m > 0
    ensures (x + m) % m == x % m
  {
    DivModUnique(x, m, x / m, x % m);
    assert x + m == (x / m + 1) * m + x % m;
    DivModUnique(x + m, m, x / m + 1, x % m);
  }

  /** After exactly one loop's worth of chunks the cursor is back where it started. */
  lemma LoopReturns(index: nat, frames: nat)
    requires index < frames
    ensures AdvanceN(index, frames, frames) == index
  {
    AdvanceNMod(index, frames, frames);
    ModShift(index, frames);
    DivModUnique(index, frames, 0, index);
  }

  lemma DivShift(x: nat, m: nat)
    requires m > 0
    ensures (x + m) / m == x / m + 1
  {
    assert x + m == (x / m + 1) * m + x % m;
    DivModUnique(x + m, m, x / m + 1, x % m);
  }

  /** Slot `j` past the first chunk is slot `j - c` one chunk later. */
  lemma SlotInNextChunk(j: nat, c: nat)
    requires 0 < c <= j
    ensures 0 <= (j - c) / c && 0 <= (j - c) % c
    ensures j / c == (j - c) / c + 1 && j % c == (j - c) % c
  {
    DivShift(j - c, c);
    ModShift(j - c, c);
    DivModUnique(j - c, c, (j - c) / c, (j - c) % c);
  }

  /** The first chunk of a callback's output is read at the cursor it starts with. */
  lemma RenderHead(clip: Clip, isOn: bool, volume: real, index: nat, n: nat, j: nat)
    requires clip.Valid()
    requires n > 0 && isOn ==> index < clip.Frames()
    requires j < n && j < clip.channels
    ensures Render(clip, isOn, volume, index, n)[j] == Out(clip, isOn, volume, index, j)
  {
    var m := if n < clip.channels then n else clip.channels;
    assert Render(clip, isOn, volume, index, n)
        == Chunk(clip, isOn, volume, index, m) + Render(clip, isOn, volume, Advance(index, clip.Frames()), n - m);
  }

  /** Past the first chunk, a callback's output is the output of one starting a frame later. */
  lemma RenderTail(clip: Clip, isOn: bool, volume: real, index: nat, n: nat, j: nat)
    requires clip.Valid()
    requires n > 0 && isOn ==> index < clip.Frames()
    requires clip.channels <= j < n
    ensures Render(clip, isOn, volume, index, n)[j]
         == Render(clip, isOn, volume, Advance(index, clip.Frames()), n - clip.channels)[j - clip.channels]
  {
    var c := clip.channels;
    var head := Chunk(clip, isOn, volume, index, c);
    var rest := Render(clip, isOn, volume, Advance(index, clip.Frames()), n - c);
    assert Render(clip, isOn, volume, index, n) == head + rest by {
      RenderStep(clip, isOn, volume, index, n, c);
    }
    assert |head| == c;
    assert (head + rest)[j] == rest[j - c];
  }

  /**
   * Slot `j` of a callback's output comes from chunk j / channels, at channel
   * j % channels, read at the cursor that chunk sees; that cursor is valid.
   */
  lemma {:induction false} RenderAt(clip: Clip, isOn: bool, volume: real, index: nat, n: nat, j: nat)
    requires clip.Valid()
    requires n > 0 && isOn ==> index < clip.Frames()
    requires j < n
    ensures isOn ==> AdvanceN(index, j / clip.channels, clip.Frames()) < clip.Frames()
    ensures Render(clip, isOn, volume, index, n)[j]
         == Out(clip, isOn, volume, AdvanceN(index, j / clip.channels, clip.Frames()), j % clip.channels)
    decreases n
  {
    var c, f := clip.channels, clip.Frames();
    if j < c {
      RenderHead(clip, isOn, volume, index, n, j);
      assert j / c == 0 && j % c == j by {
        DivModUnique(j, c, 0, j);
      }
    } else {
      var next := Advance(index, f);
      SlotInNextChunk(j, c);
      var q, i := (j - c) / c, (j - c) % c;
      RenderTail(clip, isOn, volume, index, n, j);
      RenderAt(clip, isOn, volume, next, n - c, j - c);
      assert AdvanceN(index, q + 1, f) == AdvanceN(next, q, f);
    }
  }

  /** While muted, every slot the callback writes is silence, whatever the volume or the samples. */
  lemma RenderMuted(clip: Clip, volume: real, index: nat, n: nat)
    requires clip.Valid()
    ensures forall j :: 0 <= j < n ==> Render(clip, false, volume, index, n)[j] == Silence
  {
    forall j | 0 <= j < n
      ensures Render(clip, false, volume, index, n)[j] == Silence
    {
      RenderAt(clip, false, volume, index, n, j);
    }
  }

  /**
   * While on, slot `j` is the sample of channel j % channels of the frame at the
   * cursor of chunk j / channels, times the volume, and that read is in bounds.
   */
  lemma RenderPlaying(clip: Clip, volume: real, index: nat, n: nat, j: nat)
    requires clip.Valid() && index < clip.Frames() && j < n
    ensures var k := AdvanceN(index, j / clip.channels, clip.Frames());
      k < clip.Frames() && k * clip.channels + j % clip.channels < |clip.samples| &&
      Render(clip, true, volume, index, n)[j] == Scale(clip.samples[k * clip.channels + j % clip.channels], volume)
  {
    var c, f := clip.channels, clip.Frames();
    var k := AdvanceN(index, j / c, f);
    var i := j % c;
    RenderAt(clip, true, volume, index, n, j);
    FrameReadInBounds(clip, k, i);
    assert Render(clip, true, volume, index, n)[j] == Out(clip, true, volume, k, i);
  }

  /**
   * Two callbacks in a row, the first of whole frames, write exactly what one
   * callback of the combined length writes: the loop is seamless across
   * buffers, wherever the wrap falls.
   */
  lemma {:induction false} RenderSplit(clip: Clip, isOn: bool, volume: real, index: nat, k: nat, n2: nat)
    requires clip.Valid()
    requires Slots(k, clip.channels) + n2 > 0 && isOn ==> index < clip.Frames()
    ensures Render(clip, isOn, volume, index, Slots(k, clip.channels) + n2)
         == Render(clip, isOn, volume, index, Slots(k, clip.channels))
          + Render(clip, isOn, volume, AdvanceN(index, k, clip.Frames()), n2)
    decreases k
  {
    if k == 0 {
      assert Render(clip, isOn, volume, index, 0) == [];
    } else {
      RenderSplit(clip, isOn, volume, Advance(index, clip.Frames()), k - 1, n2);
      RenderSplitStep(clip, isOn, volume, index, k, n2);
    }
  }

  /** The inductive step of RenderSplit: the split after the first chunk gives the split from the start. */
  lemma RenderSplitStep(clip: Clip, isOn: bool, volume: real, index: nat, k: nat, n2: nat)
    requires clip.Valid() && k > 0
    requires isOn ==> index < clip.Frames()
    requires Render(clip, isOn, volume, Advance(index, clip.Frames()), Slots(k - 1, clip.channels) + n2)
          == Render(clip, isOn, volume, Advance(index, clip.Frames()), Slots(k - 1, clip.channels))
           + Render(clip, isOn, volume, AdvanceN(Advance(index, clip.Frames()), k - 1, clip.Frames()), n2)
    ensures Render(clip, isOn, volume, index, Slots(k, clip.channels) + n2)
         == Render(clip, isOn, volume, index, Slots(k, clip.channels))
          + Render(clip, isOn, volume, AdvanceN(index, k, clip.Frames()), n2)
  {
    var c, f := clip.channels, clip.Frames();
    var next := Advance(index, f);
    var n1 := Slots(k, c);
    assert n1 - c == Slots(k - 1, c);
    RenderFullChunk(clip, isOn, volume, index, n1, n2);
    Regroup(Render(clip, isOn, volume, index, n1 + n2),
            Chunk(clip, isOn, volume, index, c),
            Render(clip, isOn, volume, next, (n1 - c) + n2),
            Render(clip, isOn, volume, next, n1 - c),
            Render(clip, isOn, volume, AdvanceN(next, k - 1, f), n2),
            Render(clip, isOn, volume, index, n1));
  }

  /** A callback of at least one whole frame writes one full chunk, then continues at the next frame. */
  lemma RenderFullChunk(clip: Clip, isOn: bool, volume: real, index: nat, n1: nat, n2: nat)
    requires clip.Valid() && n1 >= clip.channels
    requires isOn ==> index < clip.Frames()
    ensures Render(clip, isOn, volume, index, n1 + n2)
         == Chunk(clip, isOn, volume, index, clip.channels)
          + Render(clip, isOn, volume, Advance(index, clip.Frames()), (n1 - clip.channels) + n2)
    ensures Render(clip, isOn, volume, index, n1)
         == Chunk(clip, isOn, volume, index, clip.channels)
          + Render(clip, isOn, volume, Advance(index, clip.Frames()), n1 - clip.channels)
  {
  }

  /** Splitting the rest of a sequence splits the whole the same way. */
  lemma Regroup(whole: seq<real>, head: seq<real>, rest: seq<real>, middle: seq<real>, tail: seq<real>,
                first: seq<real>)
    requires whole == head + rest && rest == middle + tail && first == head + middle
    ensures whole == first + tail
  {
    ConcatAssoc(head, middle, tail);
  }

  lemma ConcatAssoc(a: seq<real>, b: seq<real>, c: seq<real>)
    ensures a + (b + c) == (a + b) + c
  {
  }

  /** The first chunk of a nonempty callback is `len` slots long; the rest continues at the next frame. */
  lemma RenderStep(clip: Clip, isOn: bool, volume: real, index: nat, n: nat, len: nat)
    requires clip.Valid() && n > 0 && len == (if n < clip.channels then n else clip.channels)
    requires isOn ==> index < clip.Frames()
    ensures Render(clip, isOn, volume, index, n)
         == Chunk(clip, isOn, volume, index, len)
          + Render(clip, isOn, volume, Advance(index, clip.Frames()), n - len)
  {
  }

  /**
   * The callback's progress: once the output so far is followed by the next
   * chunk, what is left to write starts at the next frame.
   */
  lemma ChunkWritten(clip: Clip, isOn: bool, volume: real, index: nat, n: nat, len: nat,
                     prefix: seq<real>, written: seq<real>, whole: seq<real>, next: nat, left: nat)
    requires clip.Valid() && n > 0 && len == (if n < clip.channels then n else clip.channels)
    requires isOn ==> index < clip.Frames()
    requires next == Advance(index, clip.Frames()) && left == n - len
    requires prefix + Render(clip, isOn, volume, index, n) == whole
    requires written == prefix + Chunk(clip, isOn, volume, index, len)
    ensures written + Render(clip, isOn, volume, next, left) == whole
  {
    RenderStep(clip, isOn, volume, index, n, len);
    ConcatAssoc(prefix, Chunk(clip, isOn, volume, index, len),
                Render(clip, isOn, volume, Advance(index, clip.Frames()), n - len));
  }

  /** Writing one chunk leaves one chunk fewer to write. */
  lemma ChunksStep(n: nat, c: nat, len: nat, left: nat)
    requires c > 0 && n > 0 && len == (if n < c then n else c) && left == n - len
    ensures Chunks(n, c) == 1 + Chunks(left, c)
  {
  }

  /**
   * Starting at frame 0, a callback as long as the clip's whole frames writes
   * those frames scaled by the volume, and leaves the cursor back at frame 0;
   * a trailing partial frame is never read.
   */
  lemma LoopPlaysClip(clip: Clip, volume: real)
    requires clip.Valid() && clip.Frames() > 0
    ensures clip.Frames() * clip.channels <= |clip.samples|
    ensures var n := clip.Frames() * clip.channels;
      forall j :: 0 <= j < n ==> Render(clip, true, volume, 0, n)[j] == Scale(clip.samples[j], volume)
    ensures AdvanceN(0, Chunks(clip.Frames() * clip.channels, clip.channels), clip.Frames()) == 0
  {
    var c, f := clip.channels, clip.Frames();
    var n := f * c;
    assert n <= |clip.samples| by {
      DivModUnique(|clip.samples|, c, f, |clip.samples| % c);
    }
    forall j | 0 <= j < n
      ensures Render(clip, true, volume, 0, n)[j] == Scale(clip.samples[j], volume)
    {
      RenderAt(clip, true, volume, 0, n, j);
      SlotOfFrame(j, c, f);
      AdvanceNMod(0, j / c, f);
    }
    assert Chunks(n, c) == f by {
      ChunksCeil(n, c);
      DivPlusRemainder(f, c);
    }
    LoopReturns(0, f);
  }

  /** Slot `j` of a run of `f` whole frames is channel j % c of frame j / c, a frame below `f`. */
  lemma SlotOfFrame(j: nat, c: nat, f: nat)
    requires c > 0 && j < f * c
    ensures j / c < f && (j / c) % f == j / c
    ensures (j / c) * c + j % c == j
  {
    var q := j / c;
    if q >= f {
      MulMonotone(f, q, c);
      assert false;
    }
    DivModUnique(q, f, 0, q);
  }

  lemma DivPlusRemainder(q: nat, m: nat)
    requires m > 0
    ensures (q * m + (m - 1)) / m == q
  {
    DivModUnique(q * m + (m - 1), m, q, m - 1);
  }
}
