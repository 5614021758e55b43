# sound-loop: the playback callback and the tray control loop

sound-loop plays one embedded sound clip over and over on the default output
device and sits in the system tray. The tray menu has three volume presets
(10%, 25%, 100%), an On/Off item and Exit. This project models the two pieces
of logic in `src/main.rs` that run after start-up and proves properties of them.

- **The output-stream callback** (`playback.dfy`, `sound_loop.dfy`). The device
  hands the callback a buffer to fill. The callback cuts it into chunks of
  `channels` slots, where `channels` is the channel count of the decoded clip.
  It fills each chunk from the frame at the shared cursor, or with 0.0 while
  playback is off. After every chunk it moves the cursor on by one frame and
  sends it back to frame 0 when it reaches the number of whole frames.
  `Playback.Render` is the pure specification of one callback: the slots it
  writes, given the clip, the on/off flag, the volume and the starting cursor.
  `SoundLoop.Player.Fill` is the callback itself and writes an `array<real>`
  in place. It holds the outer loop over chunks; each pass is
  `SoundLoop.Player.FillChunk`, which runs the inner loop over the slots of
  one chunk (`SoundLoop.Player.WriteFrame`) and then moves the cursor.
  `Fill` is proved to write exactly `Render` and to leave the cursor at the start plus the chunk count,
  modulo the frame count.
- **The control loop** (`dispatcher.dfy`, `sound_loop.dfy`). The tray's menu
  items put `f32` values on a channel. The loop takes them off in order:
  - `-1.0` flips the on/off flag and sets the tray icon to match;
  - any other value becomes the volume, and the three preset labels are
    rewritten so that only the label of that preset (if any) carries the `<`
    marker.

  `Dispatcher.Dispatch` is one step as a function on a `Control` value, and
  `Dispatcher.DispatchAll` is the fold over a message sequence.
  `SoundLoop.Player.Step` and `SoundLoop.Player.Drain` update the player's
  fields in place and are proved to agree with them.

The player's state is a class, `SoundLoop.Player`, with these fields:
- the clip (read only);
- the cursor, the on/off flag and the volume;
- the three labels and the icon. These are ghost fields: they model what the
  tray shows, not anything playback reads.

`Player.Valid()` is the invariant every operation keeps. It says:
- the cursor is below the frame count, or 0 when the clip has no whole frame;
- the labels mark the current volume;
- the icon shows the flag.

Samples and volumes are modelled as `real`, and scaling a sample by the volume
as real multiplication (`Playback.Scale`).

The proof of `Fill` also rests on a few lemmas that unfold `Render` or
`Chunks` by one chunk: `Playback.RenderHead`, `Playback.RenderStep`,
`Playback.RenderFullChunk`, `Playback.ChunkWritten` and `Playback.ChunksStep`.
They state no behaviour beyond the definitions they unfold.

## Model

| member | source | states |
|---|---|---|
| Playback.Advance | src/main.rs:62-65 | After one chunk the cursor is valid again (below the frame count, or 0 when there is none); from a cursor below the frame count it is (cursor + 1) mod frames |
| Playback.AdvanceN | src/main.rs:54-66 | After any number of chunks a valid cursor stays valid, and one below a positive frame count stays below it |
| Playback.AdvanceNLast | src/main.rs:62-65 | Advancing k + 1 chunks is advancing k chunks, then one more |
| Playback.AdvanceNMod | src/main.rs:54-66 | After k chunks from a cursor below the frame count, the cursor is (start + k) mod frames, wherever the wrap falls |
| Playback.LoopReturns | src/main.rs:62-65 | After exactly one clip's worth of chunks the cursor is back where it started |
| Playback.Chunks | src/main.rs:54 | The number of chunks `chunks_mut(channels)` cuts a buffer of n slots into: one chunk of min(n, channels) slots, then the chunks of the rest (no contract of its own; ChunksCeil gives its closed form) |
| Playback.ChunksCeil | src/main.rs:54 | A buffer of n slots is cut into ceil(n / channels) chunks, the last possibly short |
| Playback.FrameReadInBounds | src/main.rs:57 | The read `samples[index * channels + i]` is in bounds whenever index < samples.len() / channels and i < channels |
| Playback.Out | src/main.rs:56-60 | The value of slot i of a chunk read at cursor index: 0.0 while off, else samples[index * channels + i] * volume (a definition; its read is shown in bounds by FrameReadInBounds) |
| Playback.Chunk | src/main.rs:55-61 | The m slots of one chunk, slot i holding Out at cursor index; the chunk is exactly m slots long |
| Playback.Render | src/main.rs:48-66 | One callback writes exactly n slots |
| Playback.RenderTail | src/main.rs:54-66 | Past the first full chunk, the output is that of a callback starting one frame later |
| Playback.RenderAt | src/main.rs:54-61 | Slot j is written by chunk j / channels, at channel j % channels, from the cursor that chunk sees; while on, that cursor is below the frame count |
| Playback.RenderMuted | src/main.rs:56-60 | While off, every slot is 0.0, whatever the volume and the samples |
| Playback.RenderPlaying | src/main.rs:56-57 | While on, slot j is samples[k * channels + j % channels] * volume, where k is the cursor after j / channels chunks; k is below the frame count and the read is in bounds |
| Playback.RenderSplit | src/main.rs:48-66 | Two callbacks in a row, the first of k whole frames, write exactly what one callback of the combined length writes; the second starts at the cursor advanced by k |
| Playback.LoopPlaysClip | src/main.rs:54-66 | For any clip with a whole frame: its whole frames fit in the samples, and from frame 0 a callback of frames * channels slots writes exactly those samples scaled by the volume and leaves the cursor at frame 0; a trailing partial frame is never read |
| Dispatcher.Message | src/main.rs:82-100 | The value each menu item sends: -1.0 exactly for On/Off, and for a preset item the preset at its menu position (0.10, 0.25, 1.00) |
| Dispatcher.Initial | src/main.rs:38-39 | The start-up state: on, volume 0.25, labels "10%", "25%  <", "100%" (lines 82-92) and icon "icon_on" (line 75) (a constant; InitialReflects states its consistency) |
| Dispatcher.LabelsFor | src/main.rs:124-130 | The volume branch always writes three labels |
| Dispatcher.Dispatch | src/main.rs:108-131 | -1.0 flips the flag, keeps volume and labels, and sets the icon to "icon_on" when the flag is now on and "icon_off" when it is off. Any other v becomes the volume, keeps flag and icon, and label k is marked exactly when v is preset k |
| Dispatcher.LabelsMarkPreset | src/main.rs:124-130 | Label k is marked exactly when v equals preset k; at most one label is marked, and exactly one when v is a preset |
| Dispatcher.InitialReflects | src/main.rs:38-39 | The start-up labels ("10%", "25%  <", "100%") and icon "icon_on" match the start-up volume 0.25 and flag on; only label 1 is marked |
| Dispatcher.DispatchAll | src/main.rs:107-131 | The control loop over the messages taken off the channel: each one applied with Dispatch, in arrival order (a definition; DispatchAllAppend, DispatchAllIsOn and DispatchAllVolume state what it does) |
| Dispatcher.DispatchReflects | src/main.rs:108-131 | Every message keeps the labels marking the volume and the icon showing the flag |
| Dispatcher.DispatchAllReflects | src/main.rs:107-131 | However many messages arrive, the labels and icon stay consistent with volume and flag |
| Dispatcher.ToggleTwice | src/main.rs:109-118 | Two toggles restore the flag, volume and labels, and leave the icon showing the flag; from a consistent state they restore the whole state |
| Dispatcher.DispatchAllAppend | src/main.rs:107-108 | A message that arrives later is applied after all earlier ones |
| Dispatcher.DispatchAllIsOn | src/main.rs:109-112 | After a message sequence the flag is flipped exactly when it held an odd number of -1.0 messages |
| Dispatcher.DispatchAllVolume | src/main.rs:119-122 | After a message sequence the volume is the last non-toggle value sent, or the old volume if there is none: nothing is dropped or reordered |
| Dispatcher.MenuItemEffect | src/main.rs:82-100 | A preset item sets that preset's volume and marks exactly its own label; On/Off flips the flag and keeps the volume |
| Dispatcher.OrderedExample | src/main.rs:107-131 | From the start-up state of src/main.rs:38-39, the control loop run over the messages 0.10, 1.00, -1.0 ends with volume 1.00, flag off, only "100% <" marked and icon "icon_off" |
| SoundLoop.Player.constructor | src/main.rs:36-39 | Start-up: cursor 0, on, volume 0.25, the 25% label marked, icon "icon_on"; the invariant holds |
| SoundLoop.Player.Fill | src/main.rs:48-66 | The buffer ends equal to Render from the old cursor; the cursor ends at (old cursor + number of chunks) mod frames, the same whether on or off; only the cursor and the buffer change; the invariant is kept |
| SoundLoop.Player.FillChunk | src/main.rs:54-65 | One pass of the chunk loop writes the next chunk of Render in place, advances the cursor by one frame and leaves one chunk fewer to write |
| SoundLoop.Player.WriteFrame | src/main.rs:55-61 | The inner loop writes one chunk in place: 0.0 while off, else the frame's samples times the volume; nothing else in the buffer changes |
| SoundLoop.Player.Step | src/main.rs:108-131 | Applying one message in place yields the state Dispatch specifies, and keeps the invariant |
| SoundLoop.Player.Drain | src/main.rs:107-131 | Running the loop over a message sequence yields the state DispatchAll specifies, and keeps the invariant |

## Left out

- Audio device, stream configuration, `stream.play()` and the stream error callback (src/main.rs:18-29, 46-47, 68-72): foreign audio I/O. The buffer the device passes is a parameter of `Fill` and may have any length.
- MP3 decoding (src/main.rs:31-34): a foreign library. The decoded samples and channel count are inputs of the `Player` constructor.
- `Arc`/`Mutex` sharing, locking, threads and the channel mechanics (src/main.rs:35-44, 49-52, 78): concurrency. The shared values are fields of one object. The channel is the sequence of messages `Drain` consumes. The callback holds the cursor's lock for its whole run, so `Fill` works on a local copy of the cursor and stores it back at the end.
- Tray calls (`TrayItem::new`, `add_menu_item`, `set_icon`, `set_menu_item_label`): UI side effects. Only the icon and label values they leave behind are modelled, as ghost fields.
- SoundLoop.Player.Step and SoundLoop.Player.Drain model only the path where every tray call succeeds. In the source a failing `set_icon` (src/main.rs:115, 117) or `set_menu_item_label` (src/main.rs:126, 128, 130) returns the error from `main` and ends the loop. By then the flag or the volume has already changed, and the labels may be only partly rewritten.
- The Exit item and `process::exit` (src/main.rs:102-104): it ends the process and sends nothing on the channel.
- The `recv` error branch and its 100 ms sleep (src/main.rs:132-134): liveness only; it does not change the state.
- `f32` arithmetic: samples and volumes are reals, scaling is exact multiplication, and the preset comparisons are exact equality.
- The start-up `println!` of the configuration (src/main.rs:29) and `BUFFER_SIZE` (src/main.rs:12): the buffer length is left arbitrary.
- SoundLoop.Player.constructor: requires a positive channel count. With 0 channels `chunks_mut` panics on the first callback.
- SoundLoop.Player.Fill: requires the clip to hold at least one whole frame when a nonempty buffer is filled while on. When it does not, a read in the first chunk goes past the clip, unless the buffer is no longer than the clip's few samples. That corner case is excluded, not modelled.
- Playback.RenderSplit: states the split for a first callback of whole frames only (`Slots(k, channels)` slots). With a short last chunk the cursor still advances a full frame, so a split there is not seamless.
- Behaviour of the code worth noting:
  - The code does not require the decoded sample count to be a multiple of the channel count. When the clip has at least one whole frame, a trailing partial frame is never read.
  - When the clip has no whole frame, the cursor is 0 rather than below the frame count.
  - Chunks are cut by the decoded channel count (src/main.rs:32), not by the stream's configured single channel (src/main.rs:24). A buffer length that is not a multiple of it ends in a short chunk that still advances the cursor a whole frame.
