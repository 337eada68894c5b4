/** `LiveTTSSession`: client events, the segmenter task and the synthesis task of one connection,
    interleaved at their awaits. Every method is one stretch without an await; a method whose task
    is not at that point does nothing. `trace` is what was handed to `_send`, in order: the client
    receives a prefix of it. */
module LiveSession {

  import opened Text
  import opened LiveTrace
  import opened LiveOutput

  // ------------------------------------------------------------------------------------- input

  datatype Action = Append(text: string) | Commit | Idle
  datatype Input = Input(generation: nat, action: Action)

  function Length(action: Action): nat { if action.Append? then |action.text| else 0 }

  /** The characters that wait in the input queue. */
  function Waiting(input: seq<Input>): nat {
    if input == [] then 0 else Length(input[0].action) + Waiting(input[1..])
  }

  lemma {:induction false} WaitingMore(input: seq<Input>, item: Input)
    ensures Waiting(input + [item]) == Waiting(input) + Length(item.action)
  {
    if input == [] {
      assert [item][1..] == [];
    } else {
      assert (input + [item])[1..] == input[1..] + [item];
      WaitingMore(input[1..], item);
    }
  }

  /** The counters are exact, and everything queued belongs to the current generation. */
  ghost predicate Counted(input: seq<Input>, generation: nat, buffered: nat, accepted: nat, segmented: nat, cap: nat) {
    && (forall k :: 0 <= k < |input| ==> input[k].generation == generation)
    && buffered == Waiting(input) <= cap
    && accepted == segmented + buffered
  }

  lemma CountedMore(input: seq<Input>, generation: nat, buffered: nat, accepted: nat, segmented: nat, cap: nat,
      action: Action)
    requires Counted(input, generation, buffered, accepted, segmented, cap) && buffered + Length(action) <= cap
    ensures Counted(input + [Input(generation, action)], generation, buffered + Length(action), accepted + Length(action), segmented, cap)
  {
    WaitingMore(input, Input(generation, action));
  }

  /** What can happen next. The sizes, the ids and the segments are whatever they may be. */
  datatype Request =
    | Appends(text: string, utf8: nat) | Commits | Cancels | Acknowledges(response: nat, sequence: int)
    | Pauses | Resumes | Updates(wellFormed: bool) | KeepsAlive | Refused(code: string)

  datatype Step =
    | Client(request: Request)
    | IdleFires | TakesInput(segments: seq<TextSegment>) | PutsSegment
    | TakesSegment | FlowPasses | FlowTimesOut(whilePaused: bool) | FlowCloses
    | WorkerAudio(duration: real) | WorkerDone | WorkerFails | ResponseEnds | ResponseFinishes
    | Disconnects | Closes

  predicate Other(step: Step) {
    !step.Client? && !step.TakesInput? && !step.PutsSegment? && !step.TakesSegment? && !step.FlowPasses?
  }

  /** What the synthesis task's own steps lead to. */
  ghost predicate Progresses(step: Step, s: Speaker, s': Speaker, t: Trace, t': Trace, generation: nat, cancelled: bool, disconnected: bool) {
    match step
    case FlowTimesOut(whilePaused) =>
      (s.Held? ==> s'.HeldClosing?) && (s.Holding? ==> s'.HoldingClosing?)
      && (s.Held? || s.Holding? ==> t' == Then(t, Error(if whilePaused then "pause_timeout" else "playback_stalled")))
    case FlowCloses => (s.HeldClosing? ==> s'.Stopped?) && (s.HoldingClosing? ==> s' == Ending(s.response, s.generation, Dropped))
    case WorkerAudio(duration) =>
      s.Speaking? && s.generation == generation && !cancelled ==> s' == Holding(s.response, s.generation, s.status, s.next, duration)
    case WorkerDone => s.Speaking? ==> s' == Ending(s.response, s.generation, s.status)
    case WorkerFails => s.Speaking? ==> s' == Ending(s.response, s.generation, Failed) && t' == Then(t, Error("tts_error"))
    case ResponseEnds =>
      s.Ending? && s.generation == generation && !disconnected ==>
        t' == Then(t, if s.status == Failed then Done(s.response, s.generation, Failed) else AudioDone(s.response, s.generation))
        && (s.status == Failed <==> s'.Listening?)
    case ResponseFinishes => s.Finishing? ==> t' == Then(t, Done(s.response, s.generation, s.status)) && s'.Listening?
    case _ => true
  }

  class LiveTTSSession {
    const config: Config

    // input
    var generation: nat
    var input: seq<Input>
    var buffered: nat
    var accepted: nat
    ghost var segmented: nat        // characters the current segmenter was given
    var idleArmed: bool

    // segments
    var feeding: seq<Item>          // what the segmenter task has still to put
    var segments: seq<Item>         // the bounded queue
    ghost var produced: seq<Option<TextSegment>>   // the segments of this generation, and None for the end of its input

    // output
    var speaker: Speaker
    var next: nat                   // the next response id
    var workerCancel: bool
    var playback: Playback
    var paused: bool
    var closing: bool
    var disconnected: bool
    var trace: Trace

    ghost predicate InputValid()
      reads this`input, this`generation, this`buffered, this`accepted, this`segmented
    {
      Counted(input, generation, buffered, accepted, segmented, config.maxBuffer)
    }

    ghost predicate QueueValid()
      reads this`segments, this`feeding, this`generation
    {
      && |segments| <= config.maxPending
      && (forall k :: 0 <= k < |segments| ==> segments[k].generation <= generation)
      && (forall k :: 0 <= k < |feeding| ==> feeding[k].generation <= generation)
    }

    ghost predicate OutputValid()
      reads this`playback, this`trace, this`speaker, this`generation, this`workerCancel, this`next
    {
      OutputSound(config, playback, trace, speaker, generation, workerCancel, next)
    }

    ghost predicate Valid()
      reads this
    {
      config.Valid() && InputValid() && QueueValid() && OutputValid()
    }

    /** No segment of the generation is forgotten or spoken twice, and all come in order. */
    ghost predicate Conserving()
      reads this
    {
      Conserved(trace, generation, produced, Unanswered(speaker, segments, feeding, generation), Loses(speaker, closing))
    }

    constructor (config: Config)
      requires config.Valid()
      ensures Valid() && Conserving() && this.config == config && trace == Nothing
    {
      this.config := config;
      generation, input, buffered, accepted, segmented, idleArmed := 0, [], 0, 0, 0, false;
      feeding, segments, produced := [], [], [];
      speaker, next, workerCancel, playback, paused := Listening, 0, false, map[], false;
      closing, disconnected, trace := false, false, Nothing;
    }

    // ------------------------------------------------------------------------------ the client

    /** `_handle_input_append` */
    method Append(text: string, utf8: nat)
      requires Valid()
      modifies this`input, this`buffered, this`accepted, this`idleArmed, this`trace
      ensures Valid()
      ensures var fits := text != [] && utf8 <= config.maxBuffer * 4 && old(buffered) + |text| <= config.maxBuffer;
              if fits then
                && input == old(input) + [Input(generation, Action.Append(text))] && idleArmed
                && accepted == old(accepted) + |text|
                && trace == Then(old(trace), Accepted(accepted, buffered, generation))
              else
                && input == old(input) && buffered == old(buffered) && accepted == old(accepted)
                && trace == Then(old(trace), Error(if text == [] || utf8 > config.maxBuffer * 4 then "invalid_event" else "buffer_overflow"))
    {
      if text == [] || utf8 > config.maxBuffer * 4 {
        Send(Error("invalid_event"));
      } else if buffered + |text| > config.maxBuffer {
        Send(Error("buffer_overflow"));
      } else {
        Enqueue(Action.Append(text));
        idleArmed := true;
        Send(Accepted(accepted, buffered, generation));
      }
    }

    /** Puts an item of the current generation into the input queue, with the characters it brings. */
    method Enqueue(action: Action)
      requires InputValid() && buffered + Length(action) <= config.maxBuffer
      modifies this`input, this`buffered, this`accepted
      ensures InputValid() && input == old(input) + [Input(generation, action)]
      ensures buffered == old(buffered) + Length(action) && accepted == old(accepted) + Length(action)
    {
      CountedMore(input, generation, buffered, accepted, segmented, config.maxBuffer, action);
      buffered := buffered + Length(action);
      accepted := accepted + Length(action);
      input := input + [Input(generation, action)];
    }

    method Send(e: Sent)
      requires OutputValid() && Announces(e, generation)
      modifies this`trace
      ensures OutputValid() && trace == Then(old(trace), e)
    {
      OtherSent(config, playback, trace, speaker, generation, workerCancel, next, e);
      trace := Then(trace, e);
    }

    /** `_handle_input_commit` */
    method CommitInput()
      requires Valid()
      modifies this`input, this`buffered, this`accepted, this`idleArmed, this`trace
      ensures Valid() && !idleArmed && input == old(input) + [Input(generation, Commit)]
      ensures buffered == old(buffered) && accepted == old(accepted)
      ensures trace == Then(old(trace), Committed(accepted, generation))
    {
      idleArmed := false;
      Enqueue(Commit);
      Send(Committed(accepted, generation));
    }

    method Pause()
      requires Valid()
      modifies this`paused, this`trace
      ensures Valid() && !Flows() && trace == Then(old(trace), Paused)
    {
      paused := true;
      Send(Paused);
    }

    /** Playback flows again at once if the client is not behind. */
    method Resume()
      requires Valid()
      modifies this`paused, this`trace
      ensures Valid() && (Flows() <==> !closing && Unacked(playback, next) < config.limit)
      ensures trace == Then(old(trace), Resumed)
    {
      paused := false;
      Send(Resumed);
    }

    /** `_handle_cancel` */
    method Cancel()
      requires Valid()
      modifies this`generation, this`workerCancel, this`idleArmed, this`input, this`segments, this`buffered,
          this`accepted, this`segmented, this`playback, this`trace, this`produced
      ensures Valid() && generation == old(generation) + 1 && produced == []
      ensures input == [] && segments == [] && buffered == 0 && accepted == 0 && !idleArmed
      ensures playback == map[] && workerCancel && trace == Then(old(trace), Cancelled(old(generation)))
    {
      DropInput();
      CancelOutput();
      produced := [];
    }

    method DropInput()
      modifies this`idleArmed, this`input, this`segments, this`buffered, this`accepted, this`segmented
      ensures input == [] && segments == [] && buffered == 0 && accepted == 0 && segmented == 0 && !idleArmed
    {
      idleArmed := false;
      input, segments, buffered, accepted, segmented := [], [], 0, 0, 0;
    }

    method CancelOutput()
      requires config.Valid() && OutputValid()
      modifies this`generation, this`workerCancel, this`playback, this`trace
      ensures OutputValid() && generation == old(generation) + 1
      ensures playback == map[] && workerCancel && trace == Then(old(trace), Cancelled(old(generation)))
    {
      CancelStep(config, playback, trace, speaker, generation, workerCancel, next);
      trace := Then(trace, Cancelled(generation));
      generation, workerCancel, playback := generation + 1, true, map[];
    }

    /** `_handle_playback_ack` */
    method Ack(response: nat, sequence: int)
      requires OutputValid()
      modifies this`playback
      ensures OutputValid() && Unacked(playback, next) <= Unacked(old(playback), next)
      ensures if Acks(old(playback), response, sequence) then playback == AfterAck(old(playback), response, sequence)
              else playback == old(playback)
    {
      if response !in playback { return; }
      var tracker := playback[response];
      if tracker.durations == [] || sequence <= tracker.acked { return; }
      AckStep(config, playback, trace, speaker, generation, workerCancel, next, response, sequence);
      var less := Acknowledge(tracker, sequence);
      if less.outputDone && less.durations == [] {
        playback := playback - {response};
      } else {
        playback := playback[response := less];
      }
    }

    /** A `session.update`, refused while text is under way. The new segmenter starts empty. */
    method Update(wellFormed: bool)
      requires Valid()
      modifies this`trace
      ensures Valid() && trace.Then? && trace.before == old(trace)
      ensures trace.event == Error("session_busy") <==> accepted > 0 || Busy(speaker) || segments != []
      ensures trace.event == Updated ==> wellFormed && segmented == 0 && Waiting(input) == 0
      ensures trace.event == Updated || (trace.event.Error? && (trace.event.code == "invalid_event" ==> !wellFormed))
    {
      if accepted > 0 || Busy(speaker) || segments != [] {
        Send(Error("session_busy"));
      } else if !wellFormed {
        Send(Error("invalid_event"));
      } else {
        Send(Updated);
      }
    }

    // --------------------------------------------------------------------------- the segmenter

    /** The idle timer; it takes the generation when it fires. */
    method FireIdle()
      requires Valid()
      modifies this`input, this`buffered, this`accepted, this`idleArmed
      ensures Valid() && !idleArmed && buffered == old(buffered) && accepted == old(accepted)
      ensures input == old(input) + if old(idleArmed) then [Input(generation, Idle)] else []
    {
      if idleArmed {
        idleArmed := false;
        Enqueue(Idle);
      }
    }

    /** The segmenter task takes an item: the counter never has to be clamped at 0. `cut` is what the
        segmenter makes of it. */
    method TakeInput(cut: seq<TextSegment>)
      requires Valid()
      modifies this`input, this`buffered, this`segmented, this`feeding, this`produced
      ensures Valid() && accepted == segmented + buffered
      ensures produced == old(produced) + if old(feeding) == [] then Of(feeding, generation) else []
      ensures if old(feeding) == [] && old(input) != [] then
                && input == old(input)[1..] && buffered == old(buffered) - Length(old(input)[0].action)
                && feeding == Items(generation, cut, old(input)[0].action.Commit?)
              else input == old(input) && buffered == old(buffered) && feeding == old(feeding)
    {
      if feeding == [] && input != [] {
        var item := input[0];
        input := input[1..];
        if item.generation == generation {
          if item.action.Append? {
            buffered := if buffered - |item.action.text| > 0 then buffered - |item.action.text| else 0;
            segmented := segmented + |item.action.text|;
          }
          feeding := Items(item.generation, cut, item.action.Commit?);
          produced := produced + Of(feeding, generation);
        }
      }
    }

    /** The segmenter task puts one segment, if the queue has room. */
    method PutSegment()
      requires Valid()
      modifies this`feeding, this`segments
      ensures Valid()
      ensures segments + feeding == old(segments + feeding)
      ensures |feeding| == old(|feeding|) - if old(feeding) != [] && old(|segments|) < config.maxPending then 1 else 0
    {
      if feeding != [] && |segments| < config.maxPending {
        segments := segments + [feeding[0]];
        feeding := feeding[1..];
      }
    }

    // --------------------------------------------------------------------------- the synthesis

    /** The synthesis task takes a segment; one of an older generation is dropped. */
    method TakeSegment()
      requires Valid()
      modifies this`segments, this`speaker
      ensures Valid()
      ensures if old(speaker).Listening? && old(segments) != [] then
                && segments == old(segments)[1..]
                && speaker == if old(segments)[0].generation == generation && !closing then Held(old(segments)[0]) else Listening
              else segments == old(segments) && speaker == old(speaker)
    {
      if speaker.Listening? && segments != [] {
        var item := segments[0];
        segments := segments[1..];
        if item.generation == generation && !closing {
          MoveStep(config, playback, trace, speaker, Held(item), generation, workerCancel, workerCancel, next);
          speaker := Held(item);
        }
      }
    }

    /** `_wait_for_flow` lets the task go on: not paused, and less than the limit unacknowledged. */
    predicate Flows()
      reads this`closing, this`paused, this`playback, this`next
    {
      !closing && !paused && Unacked(playback, next) < config.limit
    }

    /** The task waits for playback and may go on, or finds the session closing. */
    method PassFlow()
      requires Valid()
      modifies this`speaker, this`trace, this`playback, this`next, this`workerCancel
      ensures Valid()
      ensures if closing then speaker == PassClosed(old(speaker)) && trace == old(trace) && playback == old(playback)
              else if old(Flows()) && old(speaker).Held? then
                HeldPasses(old(speaker).item, generation, old(trace), old(next), old(playback), speaker, trace, next, playback)
              else if old(Flows()) && old(speaker).Holding? then
                FramePasses(old(speaker), generation, old(trace), old(playback), speaker, trace, playback)
              else speaker == old(speaker) && trace == old(trace) && playback == old(playback)
    {
      if closing {
        PassClosing();
      } else if Flows() {
        if speaker.Held? {
          PassHeld();
        } else if speaker.Holding? {
          PassHolding();
        }
      }
    }

    /** `_wait_for_flow` returns false. */
    method PassClosing()
      requires OutputValid()
      modifies this`speaker, this`workerCancel
      ensures OutputValid()
      ensures speaker == PassClosed(old(speaker))
      ensures workerCancel == (old(workerCancel) || old(speaker).Holding?)
    {
      if speaker.Held? {
        MoveStep(config, playback, trace, speaker, Stopped, generation, workerCancel, workerCancel, next);
        speaker := Stopped;
      } else if speaker.Holding? {
        MoveStep(config, playback, trace, speaker, Ending(speaker.response, speaker.generation, Dropped), generation, workerCancel, true, next);
        speaker, workerCancel := Ending(speaker.response, speaker.generation, Dropped), true;
      }
    }

    /** A segment goes on: the end of the input, nothing to say, or a new response. */
    method PassHeld()
      requires OutputValid() && speaker.Held? && Flows()
      modifies this`speaker, this`trace, this`playback, this`next, this`workerCancel
      ensures OutputValid()
      ensures HeldPasses(old(speaker).item, generation, old(trace), old(next), old(playback), speaker, trace, next, playback)
      ensures workerCancel == (old(workerCancel) && !speaker.Speaking?)
    {
      var item := speaker.item;
      if item.generation != generation {
        MoveStep(config, playback, trace, speaker, Listening, generation, workerCancel, workerCancel, next);
        speaker := Listening;
      } else if item.segment == None || item.segment.value.text == [] {
        var e := if item.segment == None then InputDone(generation) else Skipped(generation, item.segment.value);
        MoveStep(config, playback, trace, speaker, Listening, generation, workerCancel, workerCancel, next);
        OtherSent(config, playback, trace, Listening, generation, workerCancel, next, e);
        speaker, trace := Listening, Then(trace, e);
      } else {
        CreateStep(config, playback, trace, speaker, generation, workerCancel, next);
        playback := playback[next := Tracker([], -1, false)];
        trace := Then(trace, Created(next, generation, item.segment.value));
        speaker, workerCancel := Speaking(next, generation, Completed, 0), false;
        next := next + 1;
      }
    }

    /** A frame goes on: it is sent, unless its generation is over. */
    method PassHolding()
      requires config.Valid() && OutputValid() && speaker.Holding? && Flows()
      modifies this`speaker, this`trace, this`playback, this`workerCancel
      ensures OutputValid()
      ensures FramePasses(old(speaker), generation, old(trace), old(playback), speaker, trace, playback)
      ensures workerCancel == (old(workerCancel) || old(speaker).generation != generation)
    {
      var s := speaker;
      var after := Speaking(s.response, s.generation, if s.generation == generation then s.status else Dropped, s.next + 1);
      if s.generation != generation {
        MoveStep(config, playback, trace, s, after, generation, workerCancel, true, next);
        workerCancel := true;
      } else {
        DeltaStep(config, playback, trace, s, generation, workerCancel, next);
        var tracker := playback[s.response];
        playback := playback[s.response := tracker.(durations := tracker.durations + [(s.next, s.duration)])];
        trace := Then(trace, Delta(s.response, generation, s.next));
      }
      speaker := after;
    }

    /** The wait for playback has lasted too long: this is reported, with the reason the wait began with ...
        The deadline can pass in the very turn in which the reason goes away. */
    method TimeOutFlow(whilePaused: bool)
      requires Valid()
      modifies this`speaker, this`trace
      ensures Valid()
      ensures if old(speaker).Held? || old(speaker).Holding? then
                && trace == Then(old(trace), Error(if whilePaused then "pause_timeout" else "playback_stalled"))
                && speaker == if old(speaker).Held? then HeldClosing else HoldingClosing(old(speaker).response, old(speaker).generation)
              else trace == old(trace) && speaker == old(speaker)
    {
      if speaker.Held? || speaker.Holding? {
        var away := if speaker.Held? then HeldClosing else HoldingClosing(speaker.response, speaker.generation);
        MoveStep(config, playback, trace, speaker, away, generation, workerCancel, workerCancel, next);
        speaker := away;
        Send(Error(if whilePaused then "pause_timeout" else "playback_stalled"));
      }
    }

    /** ... and then the session closes. */
    method CloseFlow()
      requires Valid()
      modifies this`speaker, this`closing, this`workerCancel
      ensures Valid()
      ensures if old(speaker).HeldClosing? || old(speaker).HoldingClosing? then
                && closing && workerCancel
                && speaker == if old(speaker).HeldClosing? then Stopped else Ending(old(speaker).response, old(speaker).generation, Dropped)
              else closing == old(closing) && workerCancel == old(workerCancel) && speaker == old(speaker)
    {
      if speaker.HeldClosing? || speaker.HoldingClosing? {
        var away := if speaker.HeldClosing? then Stopped else Ending(speaker.response, speaker.generation, Dropped);
        MoveStep(config, playback, trace, speaker, away, generation, workerCancel, true, next);
        closing, workerCancel, speaker := true, true, away;
      }
    }

    /** The worker's next frame. */
    method TakeAudio(duration: real)
      requires Valid() && 0.0 <= duration <= config.maxFrame
      modifies this`speaker
      ensures Valid()
      ensures speaker == match old(speaker)
                         case Speaking(r, g, status, n) =>
                           if g != generation || workerCancel then Speaking(r, g, Dropped, n + 1) else Holding(r, g, status, n, duration)
                         case other => other
    {
      if speaker.Speaking? {
        var away := if speaker.generation != generation || workerCancel
          then Speaking(speaker.response, speaker.generation, Dropped, speaker.next + 1)
          else Holding(speaker.response, speaker.generation, speaker.status, speaker.next, duration);
        MoveStep(config, playback, trace, speaker, away, generation, workerCancel, workerCancel, next);
        speaker := away;
      }
    }

    /** The worker is done, or has failed. */
    method TakeEnd(failed: bool)
      requires Valid()
      modifies this`speaker, this`trace
      ensures Valid()
      ensures if old(speaker).Speaking? then
                && speaker == Ending(old(speaker).response, old(speaker).generation, if failed then Failed else old(speaker).status)
                && trace == if failed then Then(old(trace), Error("tts_error")) else old(trace)
              else speaker == old(speaker) && trace == old(trace)
    {
      if speaker.Speaking? {
        var away := Ending(speaker.response, speaker.generation, if failed then Failed else speaker.status);
        MoveStep(config, playback, trace, speaker, away, generation, workerCancel, workerCancel, next);
        speaker := away;
        if failed {
          Send(Error("tts_error"));
        }
      }
    }

    /** The end of `_synthesize_segment`, up to its first await. */
    method EndResponse()
      requires Valid()
      modifies this`speaker, this`trace, this`playback
      ensures Valid()
      ensures if old(speaker).Ending? then
                && playback == Ended(old(playback), old(speaker).response)
                && (trace, speaker) == AtEnd(old(trace), old(speaker), old(speaker).generation == generation && !disconnected)
                && Unacked(playback, next) == Unacked(old(playback), next)
              else speaker == old(speaker) && trace == old(trace) && playback == old(playback)
    {
      if speaker.Ending? {
        EndStep(config, playback, trace, speaker, generation, workerCancel, next, generation == speaker.generation && !disconnected);
        var (more, after) := AtEnd(trace, speaker, speaker.generation == generation && !disconnected);
        playback := Ended(playback, speaker.response);
        speaker, trace := after, more;
      }
    }

    method FinishResponse()
      requires Valid()
      modifies this`speaker, this`trace
      ensures Valid()
      ensures if old(speaker).Finishing? then
                && trace == Then(old(trace), Done(old(speaker).response, old(speaker).generation, old(speaker).status))
                && speaker == Listening
              else trace == old(trace) && speaker == old(speaker)
    {
      if speaker.Finishing? {
        FinishStep(config, playback, trace, speaker, generation, workerCancel, next);
        trace := Then(trace, Done(speaker.response, speaker.generation, speaker.status));
        speaker := Listening;
      }
    }

    /** A send has failed, or the session is shut down. */
    method Stop(shutdown: bool)
      requires Valid()
      modifies this`disconnected, this`closing, this`workerCancel
      ensures Valid() && workerCancel
      ensures if shutdown then closing && disconnected == old(disconnected) else disconnected && closing == old(closing)
    {
      StopsWorker(config, playback, trace, speaker, generation, workerCancel, next);
      workerCancel := true;
      if shutdown { closing := true; } else { disconnected := true; }
    }

    /** `_handle_event` */
    method Receive(request: Request)
      requires Valid() && Conserving()
      modifies this
      ensures Valid() && Conserving()
      ensures match request
              case Acknowledges(_, _) => trace == old(trace) && generation == old(generation)
              case Cancels => trace == Then(old(trace), Cancelled(old(generation))) && generation == old(generation) + 1
              case _ => trace.Then? && trace.before == old(trace) && generation == old(generation) && Replies(request, trace.event)
    {
      if request.Cancels? {
        CancelAll();
      } else {
        ghost var t, pending := trace, Unanswered(speaker, segments, feeding, generation);
        Reply(request);
        ConservedSame(t, trace, generation, produced, pending, Loses(speaker, closing), pending, Loses(speaker, closing));
      }
    }

    /** A cancellation leaves no segment of the new generation. */
    method CancelAll()
      requires Valid() && Conserving()
      modifies this`generation, this`workerCancel, this`idleArmed, this`input, this`segments, this`buffered,
          this`accepted, this`segmented, this`playback, this`trace, this`produced
      ensures Valid() && Conserving() && generation == old(generation) + 1
      ensures trace == Then(old(trace), Cancelled(old(generation)))
    {
      ghost var t, g, q, pending := trace, generation, produced, Unanswered(speaker, segments, feeding, generation);
      Cancel();
      ConservedCancelled(t, g, q, pending, Loses(speaker, closing), Loses(speaker, closing));
      NoneLeft(speaker, feeding, generation);
    }

    method Reply(request: Request)
      requires Valid() && !request.Cancels?
      modifies this`input, this`buffered, this`accepted, this`idleArmed, this`trace, this`playback, this`paused
      ensures Valid()
      ensures if request.Acknowledges? then trace == old(trace)
              else trace.Then? && trace.before == old(trace) && Replies(request, trace.event)
    {
      match request
      case Appends(text, utf8) => Append(text, utf8);
      case Commits => CommitInput();
      case Acknowledges(response, sequence) => Ack(response, sequence);
      case Pauses => Pause();
      case Resumes => Resume();
      case Updates(wellFormed) => Update(wellFormed);
      case KeepsAlive => Send(KeepaliveAck);
      case Refused(code) => Send(Error(code));
    }

    /** The steps that move segments along. */
    method Feed(cut: seq<TextSegment>)
      requires Valid() && Conserving()
      modifies this`input, this`buffered, this`segmented, this`feeding, this`produced
      ensures Valid() && Conserving()
      ensures old(feeding) == [] && old(input) != [] ==> input == old(input)[1..]
    {
      ghost var none, q, pending := feeding == [], produced, Unanswered(speaker, segments, feeding, generation);
      TakeInput(cut);
      if none {
        ConservedMore(trace, generation, q, pending, Loses(speaker, closing), Of(feeding, generation));
        assert pending + Of(feeding, generation) == Unanswered(speaker, segments, feeding, generation);
      } else {
        assert q + [] == q;
      }
    }

    method Put()
      requires Valid() && Conserving()
      modifies this`feeding, this`segments
      ensures Valid() && Conserving()
      ensures old(feeding) != [] && old(|segments|) < config.maxPending ==> |feeding| < old(|feeding|)
    {
      ghost var queue, toPut := segments, feeding;
      PutSegment();
      PutKeeps(speaker, queue, toPut, segments, feeding, generation);
    }

    method Take()
      requires Valid() && Conserving()
      modifies this`segments, this`speaker
      ensures Valid() && Conserving()
      ensures old(speaker).Listening? && old(segments) != [] ==> segments == old(segments)[1..]
    {
      ghost var s, queue, pending := speaker, segments, Unanswered(speaker, segments, feeding, generation);
      TakeSegment();
      if s.Listening? && queue != [] && !closing { TakeKeeps(queue, feeding, speaker, generation); }
      ConservedSame(trace, trace, generation, produced, pending, Loses(s, closing),
                    Unanswered(speaker, segments, feeding, generation), Loses(speaker, closing));
    }

    /** The synthesis task is let go on: what it held is answered, unless the session is closing. */
    method GoOn()
      requires Valid() && Conserving()
      modifies this`speaker, this`trace, this`playback, this`next, this`workerCancel
      ensures Valid() && Conserving()
      ensures closing || old(Flows()) ==> !speaker.Held? && !speaker.Holding?
    {
      ghost var s, t, r, p, pending := speaker, trace, next, playback, Unanswered(speaker, segments, feeding, generation);
      ghost var passes := s.Held? && Flows();
      PassFlow();
      if passes {
        PassKeeps(s.item, generation, t, r, p, speaker, trace, next, playback, segments, feeding, produced);
      } else {
        ConservedSame(t, trace, generation, produced, pending, Loses(s, closing), Unanswered(speaker, segments, feeding, generation), Loses(speaker, closing));
      }
    }

    /** A step that says nothing about a segment. */
    method Go(step: Step)
      requires Valid() && Conserving() && Other(step) && (step.WorkerAudio? ==> 0.0 <= step.duration <= config.maxFrame)
      modifies this
      ensures Valid() && Conserving() && SaysNothing(old(trace), trace)
      ensures Progresses(step, old(speaker), speaker, old(trace), trace, generation, old(workerCancel), old(disconnected))
      ensures step.Disconnects? ==> disconnected
      ensures step.Closes? || (step.FlowCloses? && (old(speaker).HeldClosing? || old(speaker).HoldingClosing?)) ==> closing
    {
      ghost var s, t, closes, pending := speaker, trace, closing, Unanswered(speaker, segments, feeding, generation);
      if step.IdleFires? { FireIdle(); } else { GoSpeaking(step); }
      ConservedSame(t, trace, generation, produced, pending, Loses(s, closes),
                    Unanswered(speaker, segments, feeding, generation), Loses(speaker, closing));
    }

    method GoSpeaking(step: Step)
      requires Valid() && Other(step) && !step.IdleFires? && (step.WorkerAudio? ==> 0.0 <= step.duration <= config.maxFrame)
      modifies this`speaker, this`trace, this`playback, this`workerCancel, this`closing, this`disconnected
      ensures Valid() && SaysNothing(old(trace), trace)
      ensures Loses(old(speaker), old(closing)) ==> Loses(speaker, closing)
      ensures !Loses(speaker, closing) && (speaker.Held? || old(speaker).Held?) ==> speaker == old(speaker)
      ensures Progresses(step, old(speaker), speaker, old(trace), trace, generation, old(workerCancel), old(disconnected))
      ensures step.Disconnects? ==> disconnected
      ensures step.Closes? || (step.FlowCloses? && (old(speaker).HeldClosing? || old(speaker).HoldingClosing?)) ==> closing
    {
      match step
      case FlowTimesOut(whilePaused) => TimeOutFlow(whilePaused);
      case FlowCloses => CloseFlow();
      case WorkerAudio(duration) => TakeAudio(duration);
      case WorkerDone => TakeEnd(false);
      case WorkerFails => TakeEnd(true);
      case ResponseEnds => EndResponse();
      case ResponseFinishes => FinishResponse();
      case Disconnects => Stop(false);
      case Closes => Stop(true);
    }

    /** One step of an arbitrary interleaving. */
    method Do(step: Step)
      requires Valid() && Conserving() && (step.WorkerAudio? ==> 0.0 <= step.duration <= config.maxFrame)
      modifies this
      ensures Valid() && Conserving()
      ensures step.Client? && !step.request.Acknowledges? ==> trace.Then? && trace.before == old(trace) && Replies(step.request, trace.event)
      ensures step.FlowPasses? && (closing || old(Flows())) ==> !speaker.Held? && !speaker.Holding?
      ensures Other(step) ==> Progresses(step, old(speaker), speaker, old(trace), trace, generation, old(workerCancel), old(disconnected))
      ensures step.TakesInput? && old(feeding) == [] && old(input) != [] ==> input == old(input)[1..]
      ensures step.PutsSegment? && old(feeding) != [] && old(|segments|) < config.maxPending ==> |feeding| < old(|feeding|)
      ensures step.TakesSegment? && old(speaker).Listening? && old(segments) != [] ==> segments == old(segments)[1..]
    {
      match step
      case Client(request) => Receive(request);
      case TakesInput(cut) => Feed(cut);
      case PutsSegment => Put();
      case TakesSegment => Take();
      case FlowPasses => GoOn();
      case _ => Go(step);
    }
  }

  /** What the client is told at once. */
  predicate Replies(request: Request, e: Sent) {
    match request
    case Appends(_, _) => e.Accepted? || e.Error?
    case Commits => e.Committed?
    case Cancels => e.Cancelled?
    case Acknowledges(_, _) => false
    case Pauses => e.Paused?
    case Resumes => e.Resumed?
    case Updates(_) => e.Updated? || e.Error?
    case KeepsAlive => e.KeepaliveAck?
    case Refused(code) => e == Error(code)
  }

  lemma NoneLeft(s: Speaker, feeding: seq<Item>, generation: nat)
    requires (s.Held? ==> s.item.generation < generation) && forall k :: 0 <= k < |feeding| ==> feeding[k].generation < generation
    ensures Unanswered(s, [], feeding, generation) == []
  {
    OfOlder(feeding, generation);
  }

  /** Every run: the client, the segmenter, the synthesis and the worker take turns in any order. */
  method Run(session: LiveTTSSession, steps: seq<Step>)
    requires session.Valid() && session.Conserving()
    requires forall s :: s in steps && s.WorkerAudio? ==> 0.0 <= s.duration <= session.config.maxFrame
    modifies session
    ensures session.Valid()
    ensures var answered, s := Answered(session.trace, session.generation), session;
            && answered <= s.produced
            && (!Loses(s.speaker, s.closing) ==> answered + Unanswered(s.speaker, s.segments, s.feeding, s.generation) == s.produced)
    ensures forall i, j :: 0 <= i < j < |Events(session.trace)| ==> InTurn(Events(session.trace)[i], Events(session.trace)[j])
    ensures forall i: nat :: Numbered(Events(session.trace), i)
    ensures Unacked(session.playback, session.next) < session.config.limit + session.config.maxFrame
    ensures forall r :: r in session.playback ==> Tracks(session.playback[r], Deltas(session.trace, r))
    ensures session.buffered == Waiting(session.input) <= session.config.maxBuffer
    ensures session.accepted == session.segmented + session.buffered
  {
    for k := 0 to |steps|
      invariant session.Valid() && session.Conserving()
    {
      session.Do(steps[k]);
    }
    forall i, j | 0 <= i < j < |Events(session.trace)|
      ensures InTurn(Events(session.trace)[i], Events(session.trace)[j])
    {
      OrderlyInTurn(session.trace, i, j);
    }
    forall i: nat
      ensures Numbered(Events(session.trace), i)
    {
      DeltasNumbered(session.trace, i);
    }
  }
}
