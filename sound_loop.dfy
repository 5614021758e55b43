/*
 * The state that src/main.rs shares between the output-stream callback and
 * the control loop, and the two pieces of code that update it in place: the
 * callback, which fills the device's buffer and moves the frame cursor, and
 * the body of the control loop, which applies one channel message.
 */
module SoundLoop {
  import opened Playback
  import opened Dispatcher

  class Player {
    /** The decoded clip; only ever read. */
    const clip: Clip
    /** The frame the next chunk of output is read from. */
    var index: nat
    var isOn: bool
    var volume: real
    /** The three preset labels the tray menu shows. */
    ghost var labels: seq<string>
    /** The icon the tray shows. */
    ghost var icon: string

    /** The playback and tray state as one value. */
    ghost function State(): Control
      reads this
    {
      Control(isOn, volume, labels, icon)
    }

    ghost predicate Valid()
      reads this
    {
      clip.Valid() && CursorOk(index, clip.Frames()) && Reflects(State())
    }

    /** Startup: cursor at frame 0, sound on at volume 0.25, the 25% label marked, the "on" icon. */
    constructor (samples: seq<real>, channels: nat)
      requires channels > 0
      ensures Valid()
      ensures clip == Clip(samples, channels) && index == 0 && State() == Initial
    {
      clip := Clip(samples, channels);
      index := 0;
      isOn := true;
      volume := 0.25;
      labels := ["10%", "25%  <", "100%"];
      icon := IconOn;
      new;
      InitialReflects();
    }

    /**
     * The output-stream callback: fills `data` chunk by chunk from the frame at
     * the cursor (or with silence while off) and advances the cursor one frame
     * per chunk, a trailing short chunk included.
     */
    method Fill(data: array<real>)
      requires Valid()
      requires data.Length == 0 || !isOn || clip.Frames() > 0
      modifies this`index, data
      ensures Valid()
      ensures data[..] == Render(clip, isOn, volume, old(index), data.Length)
      ensures index == if clip.Frames() > 0 then (old(index) + Chunks(data.Length, clip.channels)) % clip.Frames() else 0
    {
      var channels := clip.channels;
      var frames := clip.Frames();
      // The callback holds the cursor's lock for its whole run, so working on a
      // copy and storing it back at the end is the same as updating it in place.
      var cursor := index;
      ghost var start := cursor;
      var on := isOn;
      var vol := volume;
      ghost var whole := Render(clip, on, vol, cursor, data.Length);
      ghost var done := 0;
      var pos := 0;
      while pos < data.Length
        invariant pos <= data.Length
        invariant CursorOk(cursor, frames)
        invariant pos < data.Length && on ==> cursor < frames
        invariant cursor == AdvanceN(start, done, frames)
        invariant done + Chunks(data.Length - pos, channels) == Chunks(data.Length, channels)
        invariant data[..pos] + Render(clip, on, vol, cursor, data.Length - pos) == whole
      {
        ghost var next := Advance(cursor, frames);
        assert AdvanceN(start, done + 1, frames) == next by {
          AdvanceNLast(start, done, frames);
        }
        cursor, pos := FillChunk(data, pos, on, vol, cursor, whole);
        done := done + 1;
      }
      assert data[..] == data[..pos];
      assert frames > 0 ==> cursor == (start + Chunks(data.Length, channels)) % frames by {
        if frames > 0 {
          AdvanceNMod(start, done, frames);
        }
      }
      index := cursor;
    }

    /**
     * One pass of the callback's chunk loop: writes the chunk at `pos` (at most
     * one frame's worth of slots) and moves the cursor on one frame, back to
     * frame 0 past the last one.
     */
    method FillChunk(data: array<real>, pos: nat, on: bool, vol: real, cursor: nat, ghost whole: seq<real>)
      returns (next: nat, end: nat)
      requires clip.Valid() && pos < data.Length
      requires CursorOk(cursor, clip.Frames()) && (on ==> cursor < clip.Frames())
      requires data[..pos] + Render(clip, on, vol, cursor, data.Length - pos) == whole
      modifies data
      ensures pos < end <= data.Length && end - pos <= clip.channels
      ensures next == Advance(cursor, clip.Frames())
      ensures Chunks(data.Length - pos, clip.channels) == 1 + Chunks(data.Length - end, clip.channels)
      ensures data[..end] + Render(clip, on, vol, next, data.Length - end) == whole
    {
      var channels := clip.channels;
      var frames := clip.Frames();
      var len := if data.Length - pos < channels then data.Length - pos else channels;
      ghost var prefix := data[..pos];
      WriteFrame(data, pos, len, on, vol, cursor);
      next := cursor + 1;
      if next >= frames {
        next := 0;
      }
      end := pos + len;
      ChunkWritten(clip, on, vol, cursor, data.Length - pos, len, prefix, data[..end], whole, next, data.Length - end);
      ChunksStep(data.Length - pos, channels, len, data.Length - end);
    }

    /**
     * The inner loop of the callback: writes the `len` slots of the chunk at
     * `pos` from frame `idx` of the clip, or silence while off.
     */
    method WriteFrame(data: array<real>, pos: nat, len: nat, on: bool, vol: real, idx: nat)
      requires clip.Valid() && pos + len <= data.Length && len <= clip.channels
      requires on ==> idx < clip.Frames()
      modifies data
      ensures data[..pos + len] == old(data[..pos]) + Chunk(clip, on, vol, idx, len)
      ensures data[pos + len..] == old(data[pos + len..])
    {
      var channels := clip.channels;
      var i := 0;
      while i < len
        invariant i <= len
        invariant data[..pos] == old(data[..pos]) && data[pos + len..] == old(data[pos + len..])
        invariant forall j :: 0 <= j < i ==> data[pos + j] == Out(clip, on, vol, idx, j)
      {
        if on {
          FrameReadInBounds(clip, idx, i);
          data[pos + i] := clip.samples[idx * channels + i] * vol;
        } else {
          data[pos + i] := 0.0;
        }
        i := i + 1;
      }
      assert data[..pos + len] == old(data[..pos]) + Chunk(clip, on, vol, idx, len);
    }

    /** One message from the tray menu: -1.0 toggles on/off, any other value is the new volume. */
    method Step(msg: real)
      requires Valid()
      modifies this`isOn, this`volume, this`labels, this`icon
      ensures Valid()
      ensures State() == Dispatch(old(State()), msg)
    {
      if msg == Toggle {
        isOn := !isOn;
        if isOn {
          icon := IconOn;
        } else {
          icon := IconOff;
        }
      } else {
        volume := msg;
        labels := labels[0 := if msg == 0.10 then "10%  <" else "10%"];
        labels := labels[1 := if msg == 0.25 then "25%  <" else "25%"];
        labels := labels[2 := if msg == 1.00 then "100% <" else "100%"];
      }
    }

    /** The control loop, run over the messages the channel delivers, in order. */
    method Drain(msgs: seq<real>)
      requires Valid()
      modifies this`isOn, this`volume, this`labels, this`icon
      ensures Valid()
      ensures State() == DispatchAll(old(State()), msgs)
    {
      var i := 0;
      while i < |msgs|
        invariant i <= |msgs|
        invariant Valid()
        invariant State() == DispatchAll(old(State()), msgs[..i])
      {
        DispatchAllAppend(old(State()), msgs[..i], msgs[i]);
        assert msgs[..i + 1] == msgs[..i] + [msgs[i]];
        Step(msgs[i]);
        i := i + 1;
      }
      assert msgs[..i] == msgs;
    }
  }
}
