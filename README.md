# silent-ping: the audio keep-alive core

silent-ping is a tray utility that keeps an audio output device awake by playing
silence on it. This project models its two pieces of logic, and nothing from its GUI:

- **the audio controller** (`src-tauri/src/audio.rs`, module `Audio` in `audio.dfy`).
  `SilentAudioPlayer` is a class with the source's three fields: `sink`, `stream`
  (the source's `_stream`) and `playing` (the source's `is_playing`). It also has a
  ghost counter `streamRequests` of calls to `OutputStream::try_default`. `start` and
  `stop` are methods that update the fields, and `is_playing` is a function that reads
  one. The invariant `Valid()` ties each handle to the flag separately: the sink is held
  exactly when the flag is set, and so is the stream, so the player never holds just one.
  `View()` maps the fields to a `Session` value (`Idle`, or `Active(stream, sink)`),
  and `StartSession` gives the meaning of `start` on that value. `SilentSource` is the
  infinite silent source: `next` always yields the zero sample, it is stereo at 48 kHz,
  and its frame length and duration are unknown.
- **the command dispatcher** (`src-tauri/src/main.rs`, module `Dispatch` in
  `dispatch.dfy`). `AudioCommand` is `Start | Stop | IsPlaying(reply)`. `RunWorker` is
  the worker thread: it creates a player and handles the queued commands one at a time,
  in order, appending every `IsPlaying` answer to a reply sequence. `Run` is the same
  computation written as a function of the queue, and the worker's loop is proved
  against it. The GUI commands `start_audio`, `stop_audio` and `is_playing` are
  functions over a `CommandQueue`: the commands sent so far, plus a flag saying whether
  the worker has gone.

The audio stack is an input. `AudioHost` is what the operating system answers, at one
moment, to the two requests `start` makes. The worker receives `host: nat -> AudioHost`,
where `host(i)` is the answer in force while the command at position `i` is handled.
The channel is a finite sequence of commands: everything that was sent before the
channel closed.

`results.dfy` holds the `Option` and `Result` types.

`audio.rs` implements one signal strategy: continuous silence on a persistent stream.
`start` acquires a stream and then a sink, and can fail on either one; the model keeps
both handles and both failures.

## Model

| member | source | states |
|---|---|---|
| `Audio.NewSilentSource` | src-tauri/src/audio.rs:64-97 | a new silent source has 2 channels and a 48 000 Hz sample rate; its current frame length and total duration are unknown (`None`). The source's accessors `SilentSource.Channels`, `SampleRate`, `CurrentFrameLen` and `TotalDuration` (audio.rs:81-97) are stated through this contract |
| `Audio.Pull` | src-tauri/src/audio.rs:73-79 | a consumer that calls `next` at most `n` times collects at most `n` samples |
| `Audio.SilentSourceNeverEnds` | src-tauri/src/audio.rs:58-79 | the source never ends: `n` calls to `SilentSource.Next` (`Iterator::next`) yield `n` samples. Each sample is silence by its type, whose one value is `Zero` |
| `Audio.StartSession` | src-tauri/src/audio.rs:19-38 | `start` returns Ok exactly when the session is playing afterwards; an already playing session is kept as it is; from idle, `start` succeeds exactly when the audio stack grants both the stream and the sink, and it then holds exactly those handles; a failure leaves the session idle, and its message is "Failed to create audio stream: " followed by the stream error, or "Failed to create sink: " followed by the sink error |
| `Audio.SilentAudioPlayer.constructor` | src-tauri/src/audio.rs:11-17 | a new player is idle, holds no sink and no stream, satisfies the invariant, and has made no stream request |
| `Audio.SilentAudioPlayer.Start` | src-tauri/src/audio.rs:19-38 | keeps the flag/handles invariant and follows `StartSession`; when already playing it returns Ok and changes nothing, so nothing is acquired; from idle it makes exactly one stream request; on failure the sink, the stream and the flag are left as they were, and only the ghost request counter has grown; on success it is playing with both handles |
| `Audio.SilentAudioPlayer.Stop` | src-tauri/src/audio.rs:40-51 | keeps the invariant and leaves no sink, no stream and the flag false; when already idle it changes nothing, so a second stop equals the first; it makes no stream request |
| `Audio.SilentAudioPlayer.IsPlaying` | src-tauri/src/audio.rs:53-55 | it is a pure read; under the invariant it is true exactly when the session is active, that is, when both handles are held |
| `Dispatch.RunWorker` | src-tauri/src/main.rs:100-116 | starting from a new player and handling the queue in order until it is exhausted, the worker ends with a valid player whose session, stream-request count and sent replies are those `Run` gives for the queue |
| `Dispatch.IdleUnlessLastToggleIsStart` | src-tauri/src/main.rs:101-110 | if the last Start-or-Stop is not a Start (or there is none), the worker ends idle whatever the audio stack answers |
| `Dispatch.PlayingIfLastToggleIsStart` | src-tauri/src/main.rs:101-110 | if every request is granted and the last Start-or-Stop is a Start, the worker ends playing |
| `Dispatch.FinalStateFollowsLastToggle` | src-tauri/src/main.rs:101-110 | if every request is granted, the worker ends playing if and only if the last Start-or-Stop was a Start; an empty queue ends idle |
| `Dispatch.RefusedStartsLeaveIdle` | src-tauri/src/main.rs:105-107 | if the audio stack refuses every request, failed Starts are ignored, the player never plays, and every query is answered false |
| `Dispatch.EveryQueryAnsweredInOrder` | src-tauri/src/main.rs:103-115 | every IsPlaying command gets exactly one reply, on its own reply channel, in queue order |
| `Dispatch.RunExtendsPrefix` | src-tauri/src/main.rs:103-115 | handling later commands never revises earlier ones: the replies sent after any prefix of the queue are a prefix of the final replies, and stream requests only grow |
| `Dispatch.QueryLeavesPlayerAlone` | src-tauri/src/main.rs:111-113 | a query sends exactly the current flag on its channel and changes neither the session nor the request count |
| `Dispatch.StartTwiceIsStartOnce` | src-tauri/src/audio.rs:20-22 | a Start after a successful Start changes nothing and requests no new stream |
| `Dispatch.StopTwiceIsStopOnce` | src-tauri/src/audio.rs:40-51 | two Stops have the same effect as one |
| `Dispatch.StartStartStopStart` | src-tauri/src/main.rs:103-110 | if every request is granted, the queue Start, Start, Stop, Start makes exactly 2 stream requests and ends playing |
| `Dispatch.Send` | src-tauri/src/main.rs:28-31 | a send succeeds exactly when the worker is still there, and then appends the command to the queue; otherwise the queue is unchanged and the error is the closed-channel text |
| `Dispatch.StartAudio` | src-tauri/src/main.rs:26-33 | `start_audio` returns `Ok(true)` and enqueues Start when the channel is open, leaving it open, and returns `Err` with the send error when it is closed |
| `Dispatch.StopAudio` | src-tauri/src/main.rs:35-42 | `stop_audio` returns `Ok(false)` and enqueues Stop when the channel is open, leaving it open, and returns `Err` with the send error when it is closed |
| `Dispatch.QueryIsPlaying` | src-tauri/src/main.rs:44-49 | `is_playing` enqueues a query (a failed send is ignored) and returns true only when the channel is open and the reply that arrives is true; a failed send or a dropped reply reads as false |
| `Dispatch.StartAudioThenDrain` | src-tauri/src/main.rs:27-33 | after an accepted `start_audio` and a drained queue, the player is playing, provided the audio stack granted that Start's requests |
| `Dispatch.StopAudioThenDrain` | src-tauri/src/main.rs:36-42 | after an accepted `stop_audio` and a drained queue, the player is idle |
| `Dispatch.QueryAnswerIsWorkerState` | src-tauri/src/main.rs:45-49 | once the query is sent, the worker's reply on its channel is its flag after every earlier command, and `is_playing` returns that reply when it arrives |

## Left out

- The tray icon, its menu, window show/focus/hide, `std::process::exit`, the Tauri builder, the plugin and the `invoke_handler` wiring (src-tauri/src/main.rs:51-97, 117-139). These are GUI glue and are not modelled. The channel created at src-tauri/src/main.rs:98 is modelled, as the command queue.
- Threads and the blocking of `mpsc`. The worker runs a finite queue to completion, and channel closure is a flag. Interleavings between the GUI commands and the worker are not modelled.
- rodio internals: device enumeration, rendering, `sink.append(SilentSource::new())`, `sink.set_volume(0.0)` and `sink.stop()` (src-tauri/src/audio.rs:30-31, 46). The audio stack's answers are inputs, and a sink records neither the source it plays nor its volume.
- `f32` samples. A sample is the opaque value `Zero`, and the volume is not modelled.
- A reply that cannot be delivered: the worker ignores the result of `reply_tx.send` (src-tauri/src/main.rs:112), and the model always records the reply in the reply sequence.
- The closed-channel message is the text that Rust's standard library gives for `SendError`. The standard library is not part of this model.
- src/main.ts, the browser-side toggle button, is UI code and is not part of this model.
