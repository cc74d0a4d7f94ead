/**
 * The command dispatcher of src-tauri/src/main.rs: one worker owns the only
 * `SilentAudioPlayer` and drains a first-in-first-out queue of commands into it;
 * the three commands the GUI invokes only enqueue.
 *
 * The channel is a finite sequence of commands (everything sent before it closed)
 * together with a flag saying whether the receiving side is gone. Threads are not
 * modelled: the worker runs the whole sequence to completion.
 */
module Dispatch {
  import opened Results
  import opened Audio

  /** The sending half of a one-shot reply channel; `id` tells channels apart. */
  datatype ReplySender = ReplySender(id: nat)

  /** `AudioCommand`. */
  datatype AudioCommand = Start | Stop | IsPlaying(reply: ReplySender)

  /** A boolean sent back on a reply channel. */
  datatype Reply = Reply(to: ReplySender, playing: bool)

  /**
   * What the worker has done so far: the player's session, the replies it sent in
   * order, and how many stream requests the player has made.
   */
  datatype Trace = Trace(session: Session, replies: seq<Reply>, streamRequests: nat)

  // ---------------------------------------------------------------------------
  // The worker, as a function of the queue
  // ---------------------------------------------------------------------------

  /** The effect of handling one command. */
  function Step(t: Trace, cmd: AudioCommand, host: AudioHost): Trace {
    match cmd
    case Start =>
      if t.session.Active? then t
      else Trace(StartSession(t.session, host).0, t.replies, t.streamRequests + 1)
    case Stop => t.(session := Idle)
    case IsPlaying(tx) => t.(replies := t.replies + [Reply(tx, t.session.Active?)])
  }

  /**
   * The worker's trace after it has handled every command of `queue`, first to last,
   * starting from a new player; `host(i)` is what the audio stack answers while the
   * command at position `i` is handled.
   */
  function Run(queue: seq<AudioCommand>, host: nat -> AudioHost): Trace
    decreases |queue|
  {
    if queue == [] then Trace(Idle, [], 0)
    else
      var n := |queue| - 1;
      Step(Run(queue[..n], host), queue[n], host(n))
  }

  /**
   * The worker thread: a new player, then one command at a time in queue order until
   * the channel is closed and drained. The player is returned so that its final state
   * can be stated.
   */
  method RunWorker(queue: seq<AudioCommand>, host: nat -> AudioHost)
    returns (player: SilentAudioPlayer, replies: seq<Reply>)
    ensures player.Valid()
    ensures player.View() == Run(queue, host).session
    ensures player.streamRequests == Run(queue, host).streamRequests
    ensures replies == Run(queue, host).replies
  {
    player := new SilentAudioPlayer();
    replies := [];
    var i := 0;
    while i < |queue|
      invariant 0 <= i <= |queue|
      invariant fresh(player) && player.Valid()
      invariant Run(queue[..i], host) == Trace(player.View(), replies, player.streamRequests)
    {
      assert queue[..i + 1][..i] == queue[..i];
      match queue[i] {
        case Start =>
          var _ := player.Start(host(i));
        case Stop =>
          player.Stop();
        case IsPlaying(tx) =>
          replies := replies + [Reply(tx, player.IsPlaying())];
      }
      i := i + 1;
    }
    assert queue[..|queue|] == queue;
  }

  // ---------------------------------------------------------------------------
  // Properties of the worker
  // ---------------------------------------------------------------------------

  /** Every command after position `i` of the queue is a query. */
  predicate OnlyQueriesAfter(queue: seq<AudioCommand>, i: nat) {
    forall j :: i < j < |queue| ==> queue[j].IsPlaying?
  }

  /** The last `Start` or `Stop` of the queue, if any. */
  function LastToggle(queue: seq<AudioCommand>): (r: Option<AudioCommand>)
    // a returned command is a Start or Stop of the queue, and only queries follow it
    ensures r.Some? ==> !r.value.IsPlaying?
    ensures r.Some? ==> exists i :: 0 <= i < |queue| && queue[i] == r.value && OnlyQueriesAfter(queue, i)
    ensures r.None? ==> forall i :: 0 <= i < |queue| ==> queue[i].IsPlaying?
    decreases |queue|
  {
    if queue == [] then None
    else
      var n := |queue| - 1;
      if queue[n].IsPlaying? then LastToggle(queue[..n]) else Some(queue[n])
  }

  /** The reply channels of the `IsPlaying` commands of the queue, in queue order. */
  function QueryChannels(queue: seq<AudioCommand>): (r: seq<ReplySender>)
    ensures |r| <= |queue|
    // every listed channel belongs to a query of the queue
    ensures forall k :: 0 <= k < |r| ==> IsPlaying(r[k]) in queue
    decreases |queue|
  {
    if queue == [] then []
    else
      var n := |queue| - 1;
      match queue[n]
      case IsPlaying(tx) => QueryChannels(queue[..n]) + [tx]
      case _ => QueryChannels(queue[..n])
  }

  /** Unless the last Start or Stop was a Start, the worker ends idle, whatever the audio stack answers. */
  lemma {:induction false} IdleUnlessLastToggleIsStart(queue: seq<AudioCommand>, host: nat -> AudioHost)
    requires LastToggle(queue) != Some(Start)
    ensures Run(queue, host).session == Idle
    decreases |queue|
  {
    if queue != [] {
      var n := |queue| - 1;
      if queue[n].IsPlaying? {
        IdleUnlessLastToggleIsStart(queue[..n], host);
      }
    }
  }

  /** With every request granted, a Start that is the last Start or Stop leaves the player playing. */
  lemma {:induction false} PlayingIfLastToggleIsStart(queue: seq<AudioCommand>, host: nat -> AudioHost)
    requires forall i :: 0 <= i < |queue| ==> host(i).Grants()
    requires LastToggle(queue) == Some(Start)
    ensures Run(queue, host).session.Active?
    decreases |queue|
  {
    var n := |queue| - 1;
    if queue[n].IsPlaying? {
      PlayingIfLastToggleIsStart(queue[..n], host);
    }
  }

  /**
   * With every request granted, the worker ends playing exactly when the last Start or
   * Stop of the queue was a Start (an empty queue ends idle).
   */
  lemma FinalStateFollowsLastToggle(queue: seq<AudioCommand>, host: nat -> AudioHost)
    requires forall i :: 0 <= i < |queue| ==> host(i).Grants()
    ensures Run(queue, host).session.Active? <==> LastToggle(queue) == Some(Start)
  {
    if LastToggle(queue) == Some(Start) {
      PlayingIfLastToggleIsStart(queue, host);
    } else {
      IdleUnlessLastToggleIsStart(queue, host);
    }
  }

  /**
   * When the audio stack refuses every request, each Start is ignored: the player never
   * plays and every query is answered `false`.
   */
  lemma {:induction false} RefusedStartsLeaveIdle(queue: seq<AudioCommand>, host: nat -> AudioHost)
    requires forall i :: 0 <= i < |queue| ==> !host(i).Grants()
    ensures Run(queue, host).session == Idle
    ensures forall k :: 0 <= k < |Run(queue, host).replies| ==> !Run(queue, host).replies[k].playing
    decreases |queue|
  {
    if queue != [] {
      RefusedStartsLeaveIdle(queue[..|queue| - 1], host);
    }
  }

  /** Every query is answered exactly once, on its own reply channel, in queue order. */
  lemma {:induction false} EveryQueryAnsweredInOrder(queue: seq<AudioCommand>, host: nat -> AudioHost)
    ensures |Run(queue, host).replies| == |QueryChannels(queue)|
    ensures forall k :: 0 <= k < |QueryChannels(queue)| ==>
      Run(queue, host).replies[k].to == QueryChannels(queue)[k]
    decreases |queue|
  {
    if queue != [] {
      EveryQueryAnsweredInOrder(queue[..|queue| - 1], host);
    }
  }

  /**
   * Handling more commands never revises what was done: the replies sent after a prefix
   * of the queue are a prefix of the final replies, and stream requests only grow.
   */
  lemma {:induction false} RunExtendsPrefix(queue: seq<AudioCommand>, host: nat -> AudioHost, k: nat)
    requires k <= |queue|
    ensures Run(queue[..k], host).replies <= Run(queue, host).replies
    ensures Run(queue[..k], host).streamRequests <= Run(queue, host).streamRequests
    decreases |queue|
  {
    if k < |queue| {
      var n := |queue| - 1;
      assert queue[..n][..k] == queue[..k];
      RunExtendsPrefix(queue[..n], host, k);
    } else {
      assert queue[..k] == queue;
    }
  }

  /** A query sends the current flag and changes neither the session nor the request count. */
  lemma QueryLeavesPlayerAlone(t: Trace, tx: ReplySender, host: AudioHost)
    ensures Step(t, IsPlaying(tx), host).session == t.session
    ensures Step(t, IsPlaying(tx), host).streamRequests == t.streamRequests
    ensures Step(t, IsPlaying(tx), host).replies == t.replies + [Reply(tx, t.session.Active?)]
  {
  }

  /** A second Start after a successful one changes nothing and requests no stream. */
  lemma StartTwiceIsStartOnce(t: Trace, h1: AudioHost, h2: AudioHost)
    requires Step(t, Start, h1).session.Active?
    ensures Step(Step(t, Start, h1), Start, h2) == Step(t, Start, h1)
  {
  }

  /** A second Stop changes nothing. */
  lemma StopTwiceIsStopOnce(t: Trace, h1: AudioHost, h2: AudioHost)
    ensures Step(Step(t, Stop, h1), Stop, h2) == Step(t, Stop, h1)
  {
  }

  /** Start, Start, Stop, Start with every request granted: two streams requested, ends playing. */
  lemma StartStartStopStart(host: nat -> AudioHost)
    requires forall i :: 0 <= i < 4 ==> host(i).Grants()
    ensures Run([Start, Start, Stop, Start], host).streamRequests == 2
    ensures Run([Start, Start, Stop, Start], host).session.Active?
  {
    var q := [Start, Start, Stop, Start];
    assert q[..3] == [Start, Start, Stop] && q[..3][..2] == [Start, Start];
    assert q[..3][..2][..1] == [Start] && q[..3][..2][..1][..0] == [];
    var t1 := Run([Start], host);
    assert t1.session.Active? && t1.streamRequests == 1 by { assert host(0).Grants(); }
    var t2 := Run(q[..3][..2], host);
    assert t2 == t1;
    var t3 := Run(q[..3], host);
    assert t3 == Trace(Idle, [], 1);
    assert host(3).Grants();
  }

  // ---------------------------------------------------------------------------
  // The sending side and the GUI commands
  // ---------------------------------------------------------------------------

  /** The text of `std::sync::mpsc::SendError`. */
  const CLOSED_CHANNEL := "sending on a closed channel"

  /**
   * The sending end of the command channel: every command sent so far, in order, and
   * whether the receiving worker is gone.
   */
  datatype CommandQueue = CommandQueue(sent: seq<AudioCommand>, closed: bool)

  /** `Sender::send`: appends to the queue, or fails when the worker is gone. */
  function Send(q: CommandQueue, cmd: AudioCommand): (r: (CommandQueue, Result<(), string>))
    ensures r.1.Ok? <==> !q.closed
    ensures r.1.Ok? ==> r.0.sent == q.sent + [cmd] && !r.0.closed
    ensures r.1.Err? ==> r.0 == q && r.1.error == CLOSED_CHANNEL
  {
    if q.closed then (q, Err(CLOSED_CHANNEL))
    else (q.(sent := q.sent + [cmd]), Ok(()))
  }

  /** `start_audio`: enqueues Start and answers `Ok(true)`, or the send error. */
  function StartAudio(q: CommandQueue): (r: (CommandQueue, Result<bool, string>))
    ensures r.1 == (if q.closed then Err(CLOSED_CHANNEL) else Ok(true))
    ensures !q.closed ==> r.0 == CommandQueue(q.sent + [Start], false)
    ensures q.closed ==> r.0 == q
  {
    var (q', sent) := Send(q, Start);
    (q', if sent.Err? then Err(sent.error) else Ok(true))
  }

  /** `stop_audio`: enqueues Stop and answers `Ok(false)`, or the send error. */
  function StopAudio(q: CommandQueue): (r: (CommandQueue, Result<bool, string>))
    ensures r.1 == (if q.closed then Err(CLOSED_CHANNEL) else Ok(false))
    ensures !q.closed ==> r.0 == CommandQueue(q.sent + [Stop], false)
    ensures q.closed ==> r.0 == q
  {
    var (q', sent) := Send(q, Stop);
    (q', if sent.Err? then Err(sent.error) else Ok(false))
  }

  /**
   * `is_playing`: enqueues a query on the fresh reply channel `tx`, ignoring a failed
   * send, and waits for the answer; `arrived` is what the reply channel yields, `None`
   * when its sender is dropped unanswered. Any missing answer reads as `false`.
   */
  function QueryIsPlaying(q: CommandQueue, tx: ReplySender, arrived: Option<bool>): (r: (CommandQueue, bool))
    ensures r.0 == Send(q, IsPlaying(tx)).0
    ensures r.1 <==> !q.closed && arrived == Some(true)
  {
    var (q', sent) := Send(q, IsPlaying(tx));
    (q', if sent.Err? then false else arrived.UnwrapOr(false))
  }

  /**
   * Once the worker has drained the queue, an accepted `start_audio` has left the player
   * playing, provided the audio stack granted that Start's requests.
   */
  lemma StartAudioThenDrain(q: CommandQueue, host: nat -> AudioHost)
    requires !q.closed && host(|q.sent|).Grants()
    ensures Run(StartAudio(q).0.sent, host).session.Active?
  {
    var s := StartAudio(q).0.sent;
    assert s[..|s| - 1] == q.sent;
  }

  /** Once the worker has drained the queue, an accepted `stop_audio` has left the player idle. */
  lemma StopAudioThenDrain(q: CommandQueue, host: nat -> AudioHost)
    requires !q.closed
    ensures Run(StopAudio(q).0.sent, host).session == Idle
  {
    var s := StopAudio(q).0.sent;
    assert s[..|s| - 1] == q.sent;
  }

  /**
   * The answer `is_playing` waits for is the one the worker sends after handling every
   * earlier command: whether the player is playing at that point. When that answer
   * arrives, `is_playing` returns it.
   */
  lemma QueryAnswerIsWorkerState(q: CommandQueue, tx: ReplySender, host: nat -> AudioHost)
    requires !q.closed
    ensures var before := Run(q.sent, host);
      Run(Send(q, IsPlaying(tx)).0.sent, host).replies == before.replies + [Reply(tx, before.session.Active?)]
    ensures var before := Run(q.sent, host);
      QueryIsPlaying(q, tx, Some(before.session.Active?)).1 == before.session.Active?
  {
    var s := Send(q, IsPlaying(tx)).0.sent;
    assert s[..|s| - 1] == q.sent;
  }
}
