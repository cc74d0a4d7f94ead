/**
 * The audio controller of src-tauri/src/audio.rs: a playback session that holds an
 * output stream and a sink while it plays, and the infinite silent source it plays.
 *
 * The operating system's audio stack (rodio's `OutputStream::try_default` and
 * `Sink::try_new`) is not modelled; what it answers is an input, `AudioHost`.
 */
module Audio {
  import opened Results

  newtype u16 = x: int | 0 <= x < 0x1_0000
  newtype u32 = x: int | 0 <= x < 0x1_0000_0000

  // ---------------------------------------------------------------------------
  // The silent source
  // ---------------------------------------------------------------------------

  /** An `f32` sample. The source only ever yields `0.0`, so that is the type's one value. */
  datatype Sample = Zero

  /** `std::time::Duration`. */
  datatype Duration = Duration(secs: nat, nanos: nat)

  const SILENT_SAMPLE_RATE: u32 := 48_000
  const SILENT_CHANNELS: u16 := 2

  /** An infinite stream of silence with fixed metadata. */
  datatype SilentSource = SilentSource(sampleRate: u32, channels: u16) {

    /** `Iterator::next`: the next item, and the iterator after the call. */
    function Next(): (Option<Sample>, SilentSource) {
      (Some(Zero), this)
    }

    /** `Source::current_frame_len`: unknown, the source has no frame boundary. */
    function CurrentFrameLen(): Option<nat> {
      None
    }

    function Channels(): u16 {
      channels
    }

    function SampleRate(): u32 {
      sampleRate
    }

    /** `Source::total_duration`: unknown, the source never ends. */
    function TotalDuration(): Option<Duration> {
      None
    }
  }

  /** `SilentSource::new`: stereo at 48 kHz, with unknown frame length and duration. */
  function NewSilentSource(): (src: SilentSource)
    ensures src.Channels() == 2 && src.SampleRate() == 48_000
    ensures src.CurrentFrameLen() == None && src.TotalDuration() == None
  {
    SilentSource(SILENT_SAMPLE_RATE, SILENT_CHANNELS)
  }

  /**
   * The samples a consumer of the source collects by calling `next` at most `n`
   * times and stopping at the first `None`.
   */
  function Pull(src: SilentSource, n: nat): (samples: seq<Sample>)
    ensures |samples| <= n
    decreases n
  {
    if n == 0 then []
    else
      match src.Next()
      case (None, _) => []
      case (Some(x), rest) => [x] + Pull(rest, n - 1)
  }

  /**
   * The source never ends: every one of `n` calls to `next` yields a sample. That the
   * sample is silence holds by its type, whose only value is `Zero`.
   */
  lemma {:induction false} SilentSourceNeverEnds(src: SilentSource, n: nat)
    ensures |Pull(src, n)| == n
  {
    if n > 0 {
      SilentSourceNeverEnds(src, n - 1);
      assert Pull(src, n) == [Zero] + Pull(src, n - 1);
    }
  }

  // ---------------------------------------------------------------------------
  // Output handles and the audio stack
  // ---------------------------------------------------------------------------

  /** An open rodio `OutputStream`; `id` tells one acquisition from another. */
  datatype OutputStream = OutputStream(id: nat)

  /** A rodio `Sink` attached to an output stream. */
  datatype Sink = Sink(id: nat)

  /**
   * What the audio stack answers, at one moment, to the two requests `start` makes:
   * `OutputStream::try_default()` and `Sink::try_new(..)`. An `Err` carries the text
   * of the underlying error.
   */
  datatype AudioHost = AudioHost(openStream: Result<OutputStream, string>,
                                 newSink: Result<Sink, string>)
  {
    /** Both requests succeed. */
    predicate Grants() {
      openStream.Ok? && newSink.Ok?
    }
  }

  const STREAM_ERROR_PREFIX := "Failed to create audio stream: "
  const SINK_ERROR_PREFIX := "Failed to create sink: "

  // ---------------------------------------------------------------------------
  // The playback session, as a value
  // ---------------------------------------------------------------------------

  /** The abstract state of a player: idle, or playing on a stream and a sink it holds. */
  datatype Session = Idle | Active(stream: OutputStream, sink: Sink)

  /**
   * What `start` does to a session, given the audio stack's answers: the session
   * afterwards and the value `start` returns.
   */
  function StartSession(s: Session, host: AudioHost): (r: (Session, Result<(), string>))
    // start reports success exactly when the session is playing afterwards
    ensures r.1.Ok? <==> r.0.Active?
    // starting a playing session keeps it, with the handles it already holds
    ensures s.Active? ==> r.0 == s
    // from idle, start succeeds exactly when both requests are granted ...
    ensures s.Idle? ==> (r.1.Ok? <==> host.Grants())
    // ... and then holds exactly the handles the audio stack handed out
    ensures s.Idle? && r.0.Active? ==> host.openStream == Ok(r.0.stream) && host.newSink == Ok(r.0.sink)
    // a failed start leaves the session idle and names the request that failed
    ensures r.1.Err? ==> r.0 == Idle
    ensures r.1.Err? && host.openStream.Err? ==> r.1.error == STREAM_ERROR_PREFIX + host.openStream.error
    ensures r.1.Err? && host.openStream.Ok? ==> r.1.error == SINK_ERROR_PREFIX + host.newSink.error
  {
    if s.Active? then (s, Ok(()))
    else
      match host.openStream
      case Err(e) => (Idle, Err(STREAM_ERROR_PREFIX + e))
      case Ok(stream) =>
        match host.newSink
        case Err(e) => (Idle, Err(SINK_ERROR_PREFIX + e))
        case Ok(sink) => (Active(stream, sink), Ok(()))
  }

  // ---------------------------------------------------------------------------
  // SilentAudioPlayer
  // ---------------------------------------------------------------------------

  class SilentAudioPlayer {
    var sink: Option<Sink>
    var stream: Option<OutputStream>
    var playing: bool
    /** How many times `OutputStream::try_default` has been called by this player. */
    ghost var streamRequests: nat

    /** The flag agrees with the presence of both handles. */
    ghost predicate Valid()
      reads this
    {
      (playing <==> sink.Some?) && (playing <==> stream.Some?)
    }

    ghost function View(): Session
      reads this
      requires Valid()
    {
      if playing then Active(stream.value, sink.value) else Idle
    }

    /** `SilentAudioPlayer::new`: an idle player holding no handle. */
    constructor ()
      ensures Valid() && View() == Idle
      ensures sink == None && stream == None && !playing
      ensures streamRequests == 0
    {
      sink := None;
      stream := None;
      playing := false;
      streamRequests := 0;
    }

    /**
     * `start`: a no-op when already playing; otherwise asks the audio stack for a
     * stream, then for a sink, and plays only when both are granted.
     */
    method Start(host: AudioHost) returns (r: Result<(), string>)
      requires Valid()
      modifies this
      ensures Valid()
      ensures (View(), r) == StartSession(old(View()), host)
      // already playing: nothing changes and nothing is acquired
      ensures old(playing) ==> r == Ok(()) && unchanged(this)
      // idle: exactly one stream request is made
      ensures !old(playing) ==> streamRequests == old(streamRequests) + 1
      // on failure, every field but the request counter is as it was
      ensures r.Err? ==> sink == old(sink) && stream == old(stream) && playing == old(playing)
      ensures r.Ok? ==> playing && sink.Some? && stream.Some?
    {
      if playing {
        return Ok(());
      }
      streamRequests := streamRequests + 1;
      match host.openStream {
        case Err(e) =>
          return Err(STREAM_ERROR_PREFIX + e);
        case Ok(s) =>
          match host.newSink {
            case Err(e) =>
              return Err(SINK_ERROR_PREFIX + e);
            case Ok(k) =>
              stream := Some(s);
              sink := Some(k);
              playing := true;
              return Ok(());
          }
      }
    }

    /** `stop`: a no-op when idle; otherwise releases both handles. */
    method Stop()
      requires Valid()
      modifies this
      ensures Valid() && View() == Idle
      ensures sink == None && stream == None && !playing
      ensures !old(playing) ==> unchanged(this)
      ensures streamRequests == old(streamRequests)
    {
      if !playing {
        return;
      }
      sink := None;
      stream := None;
      playing := false;
    }

    /** `is_playing`: the flag, which under the invariant says whether handles are held. */
    function IsPlaying(): (r: bool)
      reads this
      ensures Valid() ==> (r <==> View().Active?)
      ensures Valid() ==> (r <==> sink.Some? && stream.Some?)
    {
      playing
    }
  }
}
