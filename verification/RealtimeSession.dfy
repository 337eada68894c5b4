/** `RealtimeSession`: responses, cancellation, barge-in and paced audio of one connection. Every
    method is one stretch without an await, taken in any order; a method whose task is not at that
    point does nothing. `trace` is what was handed to `_send`, in order. */
module RealtimeSession {

  import opened Text

  type Bytes = seq<int>

  const CHUNK_SIZE := 3000   // bytes of audio in one delta

  datatype Status = Completed | Cancelled | Failed

  /** `at` is the clock when a response or a delta was sent. */
  datatype Sent =
    | Created(response: nat, at: real)
    | Delta(response: nat, data: Bytes, at: real)
    | AudioDone(response: nat)
    | Done(response: nat, status: Status)
    | Error

  datatype Trace = Nothing | Then(before: Trace, event: Sent)

  predicate IsCreated(t: Trace, response: nat) {
    t.Then? && ((t.event.Created? && t.event.response == response) || IsCreated(t.before, response))
  }

  predicate IsDone(t: Trace, response: nat) {
    t.Then? && ((t.event.Done? && t.event.response == response) || IsDone(t.before, response))
  }

  /** The audio of a response that was sent. */
  function Audio(t: Trace, response: nat): Bytes {
    if t.Nothing? then []
    else Audio(t.before, response) + if t.event.Delta? && t.event.response == response then t.event.data else []
  }

  predicate Allowed(t: Trace, e: Sent) {
    match e
    case Created(r, _) => !IsCreated(t, r)
    case Delta(r, data, _) => IsCreated(t, r) && !IsDone(t, r) && 0 < |data| <= CHUNK_SIZE
    case AudioDone(r) => IsCreated(t, r) && !IsDone(t, r)
    case Done(r, _) => IsCreated(t, r) && !IsDone(t, r)
    case Error => true
  }

  predicate Orderly(t: Trace) {
    t.Then? ==> Orderly(t.before) && Allowed(t.before, t.event)
  }

  // ------------------------------------------------------------------------------------- tasks

  /** Where the response task is. */
  datatype Task =
    | Idle                        // none, or done
    | Scheduled                   // created, not started
    | Rejecting                   // has nothing to say
    | Fetching(response: nat)     // waits for the worker
    | AtSlice(response: nat)      // has a slice, looks at the gate next
    | AtGate(response: nat)       // waits for the gate
    | Released(response: nat)     // the gate was opened while it waited
    | Sleeping(response: nat)     // is far enough ahead of playback
    | Synthesised(response: nat)  // everything is sent, waits for the worker's thread
    | Closing(response: nat)      // has sent response.audio.done
    | Failing(response: nat)      // has sent the error
    | Finishing(response: nat)    // has sent response.done

  predicate Running(task: Task) {
    !task.Idle? && !task.Scheduled? && !task.Rejecting?
  }

  /** The client's events are handled one at a time. */
  datatype Handler = Ready | Committing | Gathering   // transcribes, waits for the cancelled task

  /** Every created response is done, except the one the task is at. */
  ghost predicate Told(t: Trace, task: Task, next: nat) {
    && Orderly(t)
    && (forall r: nat {:trigger IsCreated(t, r)} :: IsCreated(t, r) <==> r < next)
    && (forall r: nat {:trigger IsDone(t, r)} :: IsDone(t, r) <==> r < next && !(Running(task) && !task.Finishing? && task.response == r))
    && (Running(task) ==> task.response + 1 == next)
  }

  /** A response that is not terminal yet can be cancelled, once. */
  ghost predicate Cancellable(task: Task, cancellable: bool, cancelling: bool, current: Option<nat>, cancelled: set<nat>) {
    && (cancellable ==> !task.Idle? && !task.Failing? && !task.Finishing? && !cancelling)
    && (cancelling ==> !task.Idle? && !task.Failing? && !task.Finishing?)
    && (!task.Idle? && !task.Failing? && !task.Finishing? ==> cancellable || cancelling)
    && (current.Some? ==> Running(task) && task.response == current.value)
    && (forall r :: r in cancelled ==> Running(task) && task.response == r && (cancelling || task.Finishing?))
  }

  /** The gate is closed exactly while a barge-in is pending, the task waits at it only then, and
      there is a timer or a commit to resolve it. */
  ghost predicate Gated(task: Task, pending: bool, gate: bool, timer: bool, handler: Handler) {
    && gate == !pending
    && (task.AtGate? ==> pending)
    && (pending ==> timer || handler.Committing?)
    && (timer ==> pending)
  }

  // ------------------------------------------------------------------------------------ pacing

  /** An ideal client plays what it holds without a pause: how many seconds it holds, and since when. */
  datatype Buffer = Buffer(at: real, seconds: real) {
    function Left(now: real): real { MaxReal(0.0, seconds - (now - at)) }
  }

  function Seconds(bytes: nat, bytesPerSecond: real): real
    requires bytesPerSecond > 0.0
  {
    bytes as real / bytesPerSecond
  }

  function Held(t: Trace, response: nat, bytesPerSecond: real): Buffer
    requires bytesPerSecond > 0.0
  {
    if t.Nothing? then Buffer(0.0, 0.0)
    else if t.event.Created? && t.event.response == response then Buffer(t.event.at, 0.0)
    else if t.event.Delta? && t.event.response == response then
      Buffer(t.event.at, Held(t.before, response, bytesPerSecond).Left(t.event.at) + Seconds(|t.event.data|, bytesPerSecond))
    else Held(t.before, response, bytesPerSecond)
  }

  /** What is fixed when a response starts; no `lead` means no limit. */
  datatype Pace = Pace(lead: Option<real>, bytesPerSecond: real) {
    ghost predicate Valid() { bytesPerSecond > 0.0 && (lead.Some? ==> lead.value > 0.0) }
  }

  predicate Streams(task: Task) {
    task.Fetching? || task.AtSlice? || task.AtGate? || task.Released? || task.Sleeping?
  }

  /** `playbackEnds` is when the ideal client runs out, and it never holds more than the lead and a
      slice; what was sent and what is left of the chunk is what was taken from the worker. */
  ghost predicate Paced(t: Trace, task: Task, pace: Pace, playbackEnds: real, rest: Bytes, taken: Bytes, clock: real) {
    && pace.Valid()
    && (Running(task) ==>
          var held := Held(t, task.response, pace.bytesPerSecond);
          && held.at <= clock && 0.0 <= held.seconds
          && (Streams(task) ==> playbackEnds == held.at + held.seconds)
          && (pace.lead.Some? ==> held.seconds <= pace.lead.value + Seconds(CHUNK_SIZE, pace.bytesPerSecond)))
    && (Streams(task) ==> Audio(t, task.response) + rest == taken && (rest != [] <==> !task.Fetching?))
    && (task.Synthesised? || task.Closing? ==> Audio(t, task.response) == taken)
  }

  // ------------------------------------------------------------------------------- step lemmas

  lemma ToldMore(t: Trace, task: Task, task': Task, next: nat, e: Sent)
    requires Told(t, task, next) && Running(task) && Running(task') && task'.response == task.response
    requires (e.Delta? || e.AudioDone? || e.Done?) ==> e.response == task.response && !task.Finishing?
    requires e.Delta? ==> 0 < |e.data| <= CHUNK_SIZE
    requires !e.Created? && (task'.Finishing? <==> e.Done? || task.Finishing?)
    ensures Told(Then(t, e), task', next)
  {
    assert IsCreated(t, task.response);
    forall r: nat ensures IsCreated(Then(t, e), r) <==> r < next {
      assert IsCreated(Then(t, e), r) == IsCreated(t, r);
    }
    forall r: nat ensures IsDone(Then(t, e), r) <==> r < next && !(!task'.Finishing? && task'.response == r) {
      assert IsDone(Then(t, e), r) == ((e.Done? && e.response == r) || IsDone(t, r));
    }
  }

  lemma ToldError(t: Trace, task: Task, next: nat)
    requires Told(t, task, next)
    ensures Told(Then(t, Error), task, next)
  {
    forall r: nat ensures IsCreated(Then(t, Error), r) == IsCreated(t, r) && IsDone(Then(t, Error), r) == IsDone(t, r) {}
  }

  lemma ToldCreated(t: Trace, task: Task, next: nat, at: real)
    requires Told(t, task, next) && task.Scheduled?
    ensures Told(Then(t, Created(next, at)), Fetching(next), next + 1)
  {
    var e := Created(next, at);
    forall r: nat ensures IsCreated(Then(t, e), r) <==> r < next + 1 {
      assert IsCreated(Then(t, e), r) == (next == r || IsCreated(t, r));
    }
    forall r: nat ensures IsDone(Then(t, e), r) == IsDone(t, r) {}
  }

  lemma {:induction false} NothingOf(t: Trace, response: nat)
    requires Orderly(t) && !IsCreated(t, response)
    ensures Audio(t, response) == []
  {
    if t.Then? { NothingOf(t.before, response); }
  }

  lemma SliceTimes(bytes: nat, bytesPerSecond: real)
    requires bytesPerSecond > 0.0 && bytes <= CHUNK_SIZE
    ensures 0.0 <= Seconds(bytes, bytesPerSecond) <= Seconds(CHUNK_SIZE, bytesPerSecond)
  {
    var a, b := Seconds(bytes, bytesPerSecond), Seconds(CHUNK_SIZE, bytesPerSecond);
    assert a * bytesPerSecond == bytes as real && b * bytesPerSecond == CHUNK_SIZE as real;
    assert a < 0.0 ==> a * bytesPerSecond < 0.0;
    assert b < a ==> b * bytesPerSecond < a * bytesPerSecond;
  }

  /** The ideal client holds no more than the lead. */
  predicate MaySend(t: Trace, response: nat, pace: Pace, now: real)
    requires pace.bytesPerSecond > 0.0
  {
    pace.lead == None || Held(t, response, pace.bytesPerSecond).Left(now) <= pace.lead.value
  }

  lemma AheadIsLeft(t: Trace, task: Task, pace: Pace, playbackEnds: real, rest: Bytes, taken: Bytes, clock: real, now: real)
    requires Paced(t, task, pace, playbackEnds, rest, taken, clock) && clock <= now && Streams(task)
    ensures Held(t, task.response, pace.bytesPerSecond).Left(now) == MaxReal(playbackEnds, now) - now
  {
  }

  /** A slice may go when the ideal client holds no more than the lead. */
  lemma PacedDelta(t: Trace, task: Task, task': Task, pace: Pace, playbackEnds: real, rest: Bytes, taken: Bytes,
      clock: real, now: real)
    requires Paced(t, task, pace, playbackEnds, rest, taken, clock) && clock <= now
    requires task.AtSlice? || task.Released? || task.Sleeping?
    requires var ahead := MaxReal(playbackEnds, now) - now; pace.lead == None || ahead <= pace.lead.value
    requires var n := if |rest| <= CHUNK_SIZE then |rest| else CHUNK_SIZE;
             task' == if n == |rest| then Fetching(task.response) else AtSlice(task.response)
    ensures Held(t, task.response, pace.bytesPerSecond).Left(now) == MaxReal(playbackEnds, now) - now
    ensures var n := if |rest| <= CHUNK_SIZE then |rest| else CHUNK_SIZE;
            && 0 < n && rest[..n] + rest[n..] == rest
            && Paced(Then(t, Delta(task.response, rest[..n], now)), task', pace,
                     MaxReal(playbackEnds, now) + Seconds(n, pace.bytesPerSecond), rest[n..], taken, now)
  {
    var n := if |rest| <= CHUNK_SIZE then |rest| else CHUNK_SIZE;
    SliceTimes(n, pace.bytesPerSecond);
    assert rest == rest[..n] + rest[n..];
    assert Audio(t, task.response) + rest[..n] + rest[n..] == Audio(t, task.response) + (rest[..n] + rest[n..]);
  }

  /** Everything else a response sends leaves its pacing alone. */
  lemma PacedSame(t: Trace, task: Task, task': Task, pace: Pace, playbackEnds: real, rest: Bytes, taken: Bytes,
      clock: real, t': Trace)
    requires Paced(t, task, pace, playbackEnds, rest, taken, clock)
    requires t' == t || (t'.Then? && t'.before == t && !t'.event.Delta? && !t'.event.Created?)
    requires Running(task') ==> Running(task) && task'.response == task.response
    requires Streams(task') ==> Streams(task) && (task'.Fetching? <==> task.Fetching?)
    requires task'.Synthesised? ==> task.Synthesised? || (task.Fetching? && rest == [])
    requires task'.Closing? ==> task.Closing? || task.Synthesised?
    ensures Paced(t', task', pace, playbackEnds, rest, taken, clock)
  {
  }

  /** Before it is terminal, a response can be at any of its awaits. */
  lemma CancellableSame(task: Task, task': Task, cancellable: bool, cancelling: bool, current: Option<nat>,
      cancelled: set<nat>)
    requires Cancellable(task, cancellable, cancelling, current, cancelled)
    requires Running(task) && !task.Failing? && !task.Finishing?
    requires Running(task') && !task'.Failing? && !task'.Finishing? && task'.response == task.response
    ensures Cancellable(task', cancellable, cancelling, current, cancelled)
  {
  }

  lemma DeltaStep(t: Trace, task: Task, task': Task, next: nat, cancellable: bool, cancelling: bool, current: Option<nat>,
      cancelled: set<nat>, e: Sent)
    requires Told(t, task, next) && Cancellable(task, cancellable, cancelling, current, cancelled) && Streams(task)
    requires Streams(task') && task'.response == task.response
    requires e.Delta? && e.response == task.response && 0 < |e.data| <= CHUNK_SIZE
    ensures Told(Then(t, e), task', next) && Cancellable(task', cancellable, cancelling, current, cancelled)
  {
    ToldMore(t, task, task', next, e);
  }

  lemma DoneStep(t: Trace, task: Task, next: nat, cancellable: bool, cancelling: bool, current: Option<nat>,
      cancelled: set<nat>, status: Status)
    requires Told(t, task, next) && Cancellable(task, cancellable, cancelling, current, cancelled)
    requires Running(task) && !task.Finishing?
    ensures Told(Then(t, Done(task.response, status)), Finishing(task.response), next)
    ensures Cancellable(Finishing(task.response), false, false, None, cancelled)
  {
    ToldMore(t, task, Finishing(task.response), next, Done(task.response, status));
  }

  /** The delta that was sent: the next slice, when the ideal client held no more than the lead. */
  ghost predicate SentSlice(before: Trace, after: Trace, response: nat, pace: Pace, rest: Bytes, rest': Bytes, now: real)
    requires pace.Valid()
  {
    && after.Then? && after.before == before && after.event.Delta?
    && after.event.response == response && after.event.at == now
    && after.event.data + rest' == rest && (rest' != [] ==> |after.event.data| == CHUNK_SIZE)
    && (pace.lead.Some? ==> Held(before, response, pace.bytesPerSecond).Left(now) <= pace.lead.value)
  }

  /** What can happen next; times are raised to the clock, which never runs backwards. */
  datatype Step =
    | ClientCreates | ClientCancels | ClientCommits(short: bool) | ClientCloses
    | ClientConfigures(interrupts: bool, blind: bool, leadMs: int)
    | SpeechStarts | SpeechStops(short: bool) | CommitEnds(interrupting: bool) | TimerFires | HandlerGathers
    | TaskStarts(speaks: bool, bytesPerSecond: real, now: real) | TaskFetches(chunk: Option<Bytes>) | TaskSlices(now: real)
    | TaskEndsSynthesis | TaskCompletes | TaskFails | TaskThrows | TaskLeaves

  class RealtimeSession {
    // settings
    var interrupts: bool         // turn detection is on and may interrupt a response
    var blind: bool              // there will be no transcript to tell an interruption by
    var lead: Option<real>

    // the response
    var task: Task
    var cancellable: bool
    var cancelling: bool         // a cancellation is on its way to the task
    var current: Option<nat>
    var cancelled: set<nat>
    var next: nat                // the next response id
    var trace: Trace

    // its audio
    var pace: Pace
    var playbackEnds: real
    var rest: Bytes              // what is left of the chunk
    ghost var taken: Bytes       // everything the worker has handed over
    var clock: real

    // barge-in
    var handler: Handler
    var pending: bool
    var gate: bool
    var timer: bool
    ghost var slips: nat         // deltas sent since this barge-in began

    ghost predicate TaskValid()
      reads this`task, this`cancellable, this`cancelling, this`current, this`cancelled, this`trace, this`next
    {
      Told(trace, task, next) && Cancellable(task, cancellable, cancelling, current, cancelled)
    }

    ghost predicate AudioValid()
      reads this`trace, this`task, this`pace, this`playbackEnds, this`rest, this`taken, this`clock
    {
      Paced(trace, task, pace, playbackEnds, rest, taken, clock)
    }

    ghost predicate BargeValid()
      reads this`task, this`pending, this`gate, this`timer, this`handler, this`slips
    {
      && Gated(task, pending, gate, timer, handler)
      && (pending ==> slips <= 1 && (slips == 1 ==> !task.Released?))
    }

    ghost predicate Valid()
      reads this
    {
      TaskValid() && AudioValid() && BargeValid() && (lead.Some? ==> lead.value > 0.0)
    }

    constructor (interrupts: bool, blind: bool, leadMs: int)
      ensures Valid() && trace == Nothing && task == Idle && handler == Ready && !pending && !cancelling
      ensures this.interrupts == interrupts && this.blind == blind && (leadMs <= 0 ==> lead == None)
    {
      this.interrupts, this.blind := interrupts, blind;
      lead := if interrupts && leadMs > 0 then Some(leadMs as real / 1000.0) else None;
      task, cancellable, cancelling, current, cancelled := Idle, false, false, None, {};
      next, trace, pace, playbackEnds, rest, taken, clock := 0, Nothing, Pace(None, 1.0), 0.0, [], [], 0.0;
      handler, pending, gate, timer, slips := Ready, false, true, false, 0;
    }

    // --------------------------------------------------------------------------- the response

    /** `_handle_response_start` */
    method Create()
      requires Valid()
      modifies this`task, this`cancellable, this`trace
      ensures Valid()
      ensures if old(task).Idle? then task == Scheduled && cancellable && trace == old(trace)
              else task == old(task) && trace == Then(old(trace), Error)
    {
      if task != Idle {
        ToldError(trace, task, next);
        PacedSame(trace, task, task, pace, playbackEnds, rest, taken, clock, Then(trace, Error));
        trace := Then(trace, Error);
      } else {
        task, cancellable := Scheduled, true;
      }
    }

    /** The response task runs for the first time. A task that was cancelled before never runs. */
    method Start(speaks: bool, bytesPerSecond: real, now: real)
      requires Valid() && bytesPerSecond > 0.0 && clock <= now
      modifies this`task, this`cancelling, this`current, this`next, this`trace, this`pace, this`playbackEnds,
          this`rest, this`taken, this`clock
      ensures Valid()
      ensures !old(task).Scheduled? ==> task == old(task) && trace == old(trace) && cancelling == old(cancelling)
      ensures old(task).Scheduled? && old(cancelling) ==> task == Idle && trace == old(trace)
      ensures old(task).Scheduled? && !old(cancelling) && !speaks ==> task == Rejecting && trace == Then(old(trace), Error)
      ensures old(task).Scheduled? && !old(cancelling) && speaks ==>
                && trace == Then(old(trace), Created(old(next), now)) && task == Fetching(old(next))
                && !cancelling && pace == Pace(lead, bytesPerSecond)
    {
      if task.Scheduled? {
        if cancelling {
          task, cancelling := Idle, false;
        } else if !speaks {
          ToldError(trace, task, next);
          task, trace := Rejecting, Then(trace, Error);
        } else {
          Begin(bytesPerSecond, now);
        }
      }
    }

    method Begin(bytesPerSecond: real, now: real)
      requires TaskValid() && task.Scheduled? && !cancelling && bytesPerSecond > 0.0 && (lead.Some? ==> lead.value > 0.0)
      modifies this`task, this`current, this`next, this`trace, this`pace, this`playbackEnds, this`rest, this`taken,
          this`clock
      ensures TaskValid() && AudioValid()
      ensures trace == Then(old(trace), Created(old(next), now)) && task == Fetching(old(next))
      ensures pace == Pace(lead, bytesPerSecond)
    {
      ToldCreated(trace, task, next, now);
      NothingOf(trace, next);
      SliceTimes(0, bytesPerSecond);
      trace, task, current := Then(trace, Created(next, now)), Fetching(next), Some(next);
      pace, playbackEnds, rest, taken, clock := Pace(lead, bytesPerSecond), now, [], [], now;
      next := next + 1;
    }

    /** The worker hands over a chunk, or its end. */
    method Fetch(chunk: Option<Bytes>)
      requires Valid()
      modifies this`task, this`rest, this`taken
      ensures Valid()
      ensures old(task).Fetching? && !cancelling && chunk.Some? ==>
                && taken == old(taken) + chunk.value && rest == chunk.value
                && task == if rest != [] then AtSlice(old(task).response) else old(task)
      ensures old(task).Fetching? && !cancelling && chunk == None ==> task == Synthesised(old(task).response) && taken == old(taken)
    {
      if task.Fetching? && !cancelling {
        if chunk == None {
          task := Synthesised(task.response);
        } else {
          taken := taken + chunk.value;
          rest := chunk.value;
          if rest != [] {
            task := AtSlice(task.response);
          }
        }
      }
    }

    /** The loop at a slice: the gate, the lead and then the delta. A task whose wait for the gate
        is over does not look at the gate again: only then can a delta go out in a barge-in. */
    method Slice(now: real) returns (sent: bool)
      requires Valid() && clock <= now
      modifies this`task, this`trace, this`playbackEnds, this`rest, this`clock, this`slips
      ensures Valid() && (!sent ==> trace == old(trace))
      ensures sent ==> Running(old(task)) && SentSlice(old(trace), trace, old(task).response, pace, old(rest), rest, now)
      ensures sent ==> (pending <==> old(task).Released? && !old(gate))
      ensures (old(task).AtSlice? || old(task).Sleeping?) && !gate && !cancelling ==> task == AtGate(old(task).response)
      ensures (((old(task).AtSlice? || old(task).Sleeping?) && gate) || old(task).Released?) && !cancelling ==>
                (sent <==> MaySend(old(trace), old(task).response, pace, now)) && (!sent ==> task == Sleeping(old(task).response))
    {
      sent := false;
      if (task.AtSlice? || task.Sleeping?) && !gate && !cancelling {
        WaitAtGate();
      } else if (task.AtSlice? || task.Sleeping? || task.Released?) && !cancelling {
        assert task.response !in cancelled;   // so the check for a cancelled response never finds one
        sent := SendSlice(now);
      }
    }

    method WaitAtGate()
      requires TaskValid() && AudioValid() && BargeValid() && !gate && (task.AtSlice? || task.Sleeping?)
      modifies this`task
      ensures TaskValid() && AudioValid() && BargeValid() && task == AtGate(old(task).response)
    {
      CancellableSame(task, AtGate(task.response), cancellable, cancelling, current, cancelled);
      task := AtGate(task.response);
    }

    method SendSlice(now: real) returns (sent: bool)
      requires TaskValid() && AudioValid() && clock <= now && !cancelling
      requires task.Released? || task.AtSlice? || task.Sleeping?
      modifies this`task, this`trace, this`playbackEnds, this`rest, this`clock, this`slips
      ensures TaskValid() && AudioValid() && slips == old(slips) + if sent then 1 else 0
      ensures task.Fetching? || task.AtSlice? || task.Sleeping?
      ensures sent <==> MaySend(old(trace), old(task).response, pace, now)
      ensures !sent ==> task == Sleeping(old(task).response)
      ensures sent ==> SentSlice(old(trace), trace, old(task).response, pace, old(rest), rest, now)
      ensures !sent ==> trace == old(trace) && rest == old(rest)
    {
      var ends := MaxReal(playbackEnds, now);
      var ahead := ends - now;
      sent := pace.lead == None || ahead <= pace.lead.value;
      AheadIsLeft(trace, task, pace, playbackEnds, rest, taken, clock, now);
      if sent {
        Deliver(now);
      } else {
        CancellableSame(task, Sleeping(task.response), cancellable, cancelling, current, cancelled);
        playbackEnds := ends;
        task := Sleeping(task.response);
        clock := now;
      }
    }

    method Deliver(now: real)
      requires TaskValid() && AudioValid() && clock <= now
      requires task.Released? || task.AtSlice? || task.Sleeping?
      requires pace.lead.Some? ==> MaxReal(playbackEnds, now) - now <= pace.lead.value
      modifies this`task, this`trace, this`playbackEnds, this`rest, this`clock, this`slips
      ensures TaskValid() && AudioValid() && slips == old(slips) + 1
      ensures task.Fetching? || task.AtSlice?
      ensures SentSlice(old(trace), trace, old(task).response, pace, old(rest), rest, now)
    {
      var n := if |rest| <= CHUNK_SIZE then |rest| else CHUNK_SIZE;
      var after := if n == |rest| then Fetching(task.response) else AtSlice(task.response);
      var event := Delta(task.response, rest[..n], now);
      PacedDelta(trace, task, after, pace, playbackEnds, rest, taken, clock, now);
      DeltaStep(trace, task, after, next, cancellable, cancelling, current, cancelled, event);
      trace, playbackEnds, rest, clock := Then(trace, event), MaxReal(playbackEnds, now) + Seconds(n, pace.bytesPerSecond), rest[n..], now;
      task, slips := after, slips + 1;
    }

    /** The worker's thread has ended: all of its audio was sent. */
    method EndSynthesis()
      requires Valid()
      modifies this`task, this`trace
      ensures Valid()
      ensures old(task).Synthesised? && !cancelling ==>
                && trace == Then(old(trace), AudioDone(old(task).response)) && task == Closing(old(task).response)
                && Audio(old(trace), old(task).response) == taken
      ensures !(old(task).Synthesised? && !cancelling) ==> task == old(task) && trace == old(trace)
    {
      if task.Synthesised? && !cancelling {
        assert task.response !in cancelled;
        var after, event := Closing(task.response), AudioDone(task.response);
        ToldMore(trace, task, after, next, event);
        PacedSame(trace, task, after, pace, playbackEnds, rest, taken, clock, Then(trace, event));
        CancellableSame(task, after, cancellable, cancelling, current, cancelled);
        task, trace := after, Then(trace, event);
      }
    }

    /** Synthesis fails: the response is terminal, and the error is sent. */
    method Fail()
      requires Valid()
      modifies this`task, this`trace, this`cancellable, this`current
      ensures Valid()
      ensures if (old(task).Fetching? || old(task).Synthesised?) && !cancelling then
                task == Failing(old(task).response) && trace == Then(old(trace), Error) && !cancellable && current == None
              else task == old(task) && trace == old(trace) && cancellable == old(cancellable) && current == old(current)
    {
      if (task.Fetching? || task.Synthesised?) && !cancelling {
        var after := Failing(task.response);
        ToldMore(trace, task, after, next, Error);
        PacedSame(trace, task, after, pace, playbackEnds, rest, taken, clock, Then(trace, Error));
        cancellable, current := false, None;
        task, trace := after, Then(trace, Error);
      }
    }

    /** `_mark_response_terminal`, and response.done. */
    method FinishWith(status: Status)
      requires Valid() && Running(task) && !task.Finishing?
      modifies this`task, this`trace, this`cancellable, this`current, this`cancelling
      ensures Valid()
      ensures task == Finishing(old(task).response) && trace == Then(old(trace), Done(task.response, status)) && !cancellable
    {
      MarkDone(status);
      assert BargeValid();
    }

    method MarkDone(status: Status)
      requires TaskValid() && AudioValid() && Running(task) && !task.Finishing?
      modifies this`task, this`trace, this`cancellable, this`current, this`cancelling
      ensures TaskValid() && AudioValid()
      ensures task == Finishing(old(task).response) && trace == Then(old(trace), Done(task.response, status)) && !cancellable
    {
      var after, event := Finishing(task.response), Done(task.response, status);
      DoneStep(trace, task, next, cancellable, cancelling, current, cancelled, status);
      PacedSame(trace, task, after, pace, playbackEnds, rest, taken, clock, Then(trace, event));
      cancellable, cancelling, current := false, false, None;
      task, trace := after, Then(trace, event);
    }

    /** The response ends: spoken to the end, or failed. */
    method Complete()
      requires Valid()
      modifies this`task, this`trace, this`cancellable, this`current, this`cancelling
      ensures Valid()
      ensures old(task).Closing? && !old(cancelling) ==> trace == Then(old(trace), Done(old(task).response, Completed))
      ensures old(task).Failing? ==> trace == Then(old(trace), Done(old(task).response, Failed))
      ensures !(old(task).Closing? && !old(cancelling)) && !old(task).Failing? ==> task == old(task) && trace == old(trace)
    {
      if task.Closing? && !cancelling {
        FinishWith(Completed);
      } else if task.Failing? {
        FinishWith(Failed);
      }
    }

    /** The cancellation reaches the task at its await. */
    method Throw()
      requires Valid()
      modifies this`task, this`trace, this`cancellable, this`current, this`cancelling, this`cancelled, this`pending,
          this`gate, this`timer
      ensures Valid()
      ensures old(cancelling) && Running(old(task)) ==> trace == Then(old(trace), Done(old(task).response, Cancelled))
      ensures old(cancelling) && old(task).Rejecting? ==> task == Idle && trace == old(trace)
      ensures !old(cancelling) || old(task).Scheduled? ==> task == old(task) && trace == old(trace)
    {
      if cancelling && Running(task) {
        FinishWith(Cancelled);
      } else if cancelling && task.Rejecting? {
        Leave();
      }
    }

    /** The task is done: its `finally` clauses. */
    method EndRun()
      requires Valid()
      modifies this`task, this`cancellable, this`current, this`cancelling, this`cancelled, this`pending, this`gate,
          this`timer
      ensures Valid()
      ensures if old(task).Finishing? || (old(task).Rejecting? && !old(cancelling)) then task == Idle && !pending && !cancellable && current == None
              else task == old(task) && pending == old(pending) && cancellable == old(cancellable)
    {
      if task.Finishing? || (task.Rejecting? && !cancelling) {
        Leave();
      }
    }

    method Leave()
      requires Valid() && (task.Finishing? || task.Rejecting?)
      modifies this`task, this`cancellable, this`current, this`cancelling, this`cancelled, this`pending, this`gate,
          this`timer
      ensures Valid() && task == Idle && !pending && !cancellable && current == None
    {
      EndBargeIn();
      task, cancellable, cancelling, current, cancelled := Idle, false, false, None, {};
    }

    /** `_cancel_response` up to its await; true if it has to wait for the task. */
    method CancelResponse() returns (waits: bool)
      requires TaskValid()
      modifies this`cancellable, this`cancelling, this`current, this`cancelled
      ensures TaskValid() && waits == old(cancellable) && !cancellable
      ensures waits ==> cancelling && current == None && cancelled == old(cancelled) + if old(current).Some? then {old(current).value} else {}
      ensures !waits ==> cancelling == old(cancelling) && current == old(current) && cancelled == old(cancelled)
    {
      waits := cancellable;
      if waits {
        cancellable := false;
        if current.Some? {
          cancelled := cancelled + {current.value};
          current := None;
        }
        cancelling := true;
      }
    }

    // ------------------------------------------------------------------------------- barge-in

    /** `_end_barge_in`: a task that waits at the gate is released. */
    method EndBargeIn()
      requires TaskValid() && AudioValid() && BargeValid()
      modifies this`pending, this`gate, this`timer, this`task
      ensures TaskValid() && AudioValid() && BargeValid() && !pending
      ensures task == if old(task).AtGate? then Released(old(task).response) else old(task)
    {
      pending, gate, timer := false, true, false;
      if task.AtGate? {
        CancellableSame(task, Released(task.response), cancellable, cancelling, current, cancelled);
        task := Released(task.response);
      }
    }

    /** `_interrupt` */
    method Interrupt() returns (waits: bool)
      requires Valid()
      modifies this`pending, this`gate, this`timer, this`task, this`cancellable, this`cancelling, this`current,
          this`cancelled
      ensures Valid() && !pending && !cancellable && waits == old(cancellable) && cancelling == (old(cancelling) || waits)
      ensures task == if old(task).AtGate? then Released(old(task).response) else old(task)
    {
      EndBargeIn();
      waits := CancelResponse();
    }

    /** `_on_user_speech_started` */
    method StartSpeech()
      requires Valid()
      modifies this`pending, this`gate, this`timer, this`slips, this`handler, this`cancellable, this`cancelling,
          this`current, this`cancelled
      ensures Valid() && trace == old(trace)
      ensures old(handler).Ready? && old(cancellable) && interrupts && !old(pending) ==>
                if blind then cancelling && !cancellable && handler.Gathering? && !pending
                else pending && timer && handler.Ready? && cancelling == old(cancelling) && cancellable
      ensures !(old(handler).Ready? && old(cancellable) && interrupts && !old(pending)) ==>
                pending == old(pending) && timer == old(timer) && cancellable == old(cancellable) && handler == old(handler)
    {
      if handler.Ready? && cancellable && interrupts && !pending {
        if blind {
          var _ := CancelResponse();
          handler := Gathering;
        } else {
          SuspendPlayback();
        }
      }
    }

    /** Closes the gate and arms the timer. */
    method SuspendPlayback()
      requires BargeValid()
      modifies this`pending, this`gate, this`timer, this`slips
      ensures BargeValid() && pending && timer && !gate
    {
      pending, gate, timer, slips := true, false, true, 0;
    }

    /** Speech stops: the timer is stopped, and the utterance is committed. Too little audio needs no
        transcript: `_resolve_barge_in(None)`. */
    method StopSpeech(short: bool)
      requires Valid()
      modifies this`pending, this`gate, this`timer, this`task, this`handler
      ensures Valid()
      ensures old(handler).Ready? ==> !timer && if short then !pending && handler == Ready else handler == Committing
      ensures !(old(handler).Ready? && short) ==> pending == old(pending) && task == old(task)
      ensures old(handler).Ready? && short ==> task == if old(task).AtGate? then Released(old(task).response) else old(task)
      ensures !old(handler).Ready? ==> handler == old(handler) && timer == old(timer)
    {
      if handler.Ready? {
        handler := Committing;
        timer := false;
        if short {
          EndBargeIn();
          handler := Ready;
        }
      }
    }

    /** The client commits; a timer goes on. */
    method CommitByHand(short: bool)
      requires Valid()
      modifies this`pending, this`gate, this`timer, this`task, this`handler
      ensures Valid()
      ensures old(handler).Ready? ==> if short then !pending && handler == Ready else handler == Committing && pending == old(pending)
    {
      if handler.Ready? {
        handler := Committing;
        if short {
          EndBargeIn();
          handler := Ready;
        }
      }
    }

    /** The transcript is there, or there is none: `_resolve_barge_in`. */
    method EndCommit(interrupting: bool)
      requires Valid()
      modifies this`pending, this`gate, this`timer, this`task, this`handler, this`cancellable, this`cancelling,
          this`current, this`cancelled
      ensures Valid()
      ensures old(handler).Committing? ==> !pending && !handler.Committing?
      ensures old(handler).Committing? ==> task == if old(task).AtGate? then Released(old(task).response) else old(task)
      ensures old(handler).Committing? && !(old(pending) && interrupting) ==> handler == Ready
      ensures old(handler).Committing? && old(pending) && interrupting ==> !cancellable && (old(cancellable) ==> cancelling)
      ensures !old(handler).Committing? || !old(pending) || !interrupting ==> cancellable == old(cancellable) && cancelling == old(cancelling)
    {
      if handler.Committing? {
        var waits := false;
        if pending && interrupting {
          waits := Interrupt();
        } else if pending {
          EndBargeIn();
        }
        handler := if waits then Gathering else Ready;
      }
    }

    /** `_barge_in_deadline` */
    method FireTimer()
      requires Valid()
      modifies this`pending, this`gate, this`timer, this`task, this`cancellable, this`cancelling, this`current,
          this`cancelled
      ensures Valid() && !timer && (old(timer) ==> !pending && !cancellable && (old(cancellable) ==> cancelling))
      ensures !old(timer) ==> pending == old(pending) && cancellable == old(cancellable) && task == old(task)
    {
      if timer && pending {
        var waits := Interrupt();
      }
    }

    // ------------------------------------------------------------------------------ the client

    method CancelByClient()
      requires Valid()
      modifies this`handler, this`cancellable, this`cancelling, this`current, this`cancelled
      ensures Valid()
      ensures if old(handler).Ready? then
                !cancellable && cancelling == (old(cancelling) || old(cancellable)) && handler == if old(cancellable) then Gathering else Ready
              else handler == old(handler) && cancellable == old(cancellable) && cancelling == old(cancelling)
    {
      if handler.Ready? {
        var waits := CancelResponse();
        handler := if waits then Gathering else Ready;
      }
    }

    /** The handler has waited for the cancelled task. */
    method Gathered()
      requires Valid()
      modifies this`handler
      ensures Valid() && handler == if old(handler).Gathering? && task.Idle? then Ready else old(handler)
    {
      if handler.Gathering? && task.Idle? {
        handler := Ready;
      }
    }

    /** `close` up to its await. */
    method Close()
      requires Valid()
      modifies this`pending, this`gate, this`timer, this`task, this`cancellable, this`cancelling, this`current
      ensures Valid() && !pending && !cancellable && cancelling == (old(cancelling) || old(cancellable)) && current == None
    {
      EndBargeIn();
      cancelling := cancelling || cancellable;
      cancellable, current := false, None;
    }

    /** A `session.update`. */
    method Configure(interrupts: bool, blind: bool, leadMs: int)
      requires Valid()
      modifies this`interrupts, this`blind, this`lead
      ensures Valid() && this.interrupts == interrupts && this.blind == blind
      ensures lead == if interrupts && leadMs > 0 then Some(leadMs as real / 1000.0) else None
    {
      this.interrupts, this.blind := interrupts, blind;
      lead := if interrupts && leadMs > 0 then Some(leadMs as real / 1000.0) else None;
    }

    /** A step of the client, the detector or the handler. */
    method DoHandler(step: Step)
      requires Valid() && !OfTask(step)
      modifies this
      ensures Valid()
      ensures step.ClientCreates? && old(task).Idle? ==> task.Scheduled? && cancellable
      ensures step.ClientCancels? && old(handler).Ready? ==> !cancellable && (old(cancellable) ==> cancelling)
      ensures step.ClientCloses? ==> !pending && !cancellable && (old(cancellable) ==> cancelling)
      ensures step.SpeechStarts? && old(handler).Ready? && old(cancellable) && interrupts && !old(pending) ==>
                if blind then cancelling && !cancellable else pending && timer && cancellable
      ensures (step.SpeechStops? || step.ClientCommits?) && old(handler).Ready? ==> if step.short then !pending else handler.Committing?
      ensures step.CommitEnds? && old(handler).Committing? ==>
                !pending && (old(pending) && step.interrupting ==> !cancellable && (old(cancellable) ==> cancelling))
      ensures step.TimerFires? && old(timer) ==> !pending && !cancellable && (old(cancellable) ==> cancelling)
    {
      match step
      case ClientCreates => Create();
      case ClientCancels => CancelByClient();
      case ClientCommits(short) => CommitByHand(short);
      case ClientConfigures(interrupts', blind', leadMs) => Configure(interrupts', blind', leadMs);
      case ClientCloses => Close();
      case SpeechStarts => StartSpeech();
      case SpeechStops(short) => StopSpeech(short);
      case CommitEnds(interrupting) => EndCommit(interrupting);
      case TimerFires => FireTimer();
      case HandlerGathers => Gathered();
    }

    /** A step of the response task. */
    method DoTask(step: Step)
      requires Valid() && OfTask(step) && (step.TaskStarts? ==> step.bytesPerSecond > 0.0)
      modifies this
      ensures Valid() && Continues(step, old(task), old(cancelling), old(gate), old(trace), task, trace)
      ensures step.TaskFetches? && step.chunk.Some? && old(task).Fetching? && !old(cancelling) ==> taken == old(taken) + step.chunk.value
      ensures step.TaskSlices? && old(task).Released? && !old(cancelling) ==>
                (trace != old(trace) <==> MaySend(old(trace), old(task).response, pace, MaxReal(old(clock), step.now)))
      ensures step.TaskSlices? && (old(task).AtSlice? || old(task).Sleeping?) && old(gate) && !old(cancelling) ==>
                (trace != old(trace) <==> MaySend(old(trace), old(task).response, pace, MaxReal(old(clock), step.now)))
    {
      match step
      case TaskStarts(speaks, bytesPerSecond, now) => Start(speaks, bytesPerSecond, MaxReal(clock, now));
      case TaskFetches(chunk) => Fetch(chunk);
      case TaskSlices(now) => var _ := Slice(MaxReal(clock, now));
      case TaskEndsSynthesis => EndSynthesis();
      case TaskCompletes => Complete();
      case TaskFails => Fail();
      case TaskThrows => Throw();
      case TaskLeaves => EndRun();
    }

    /** One step of an arbitrary interleaving. */
    method Do(step: Step)
      requires Valid() && (step.TaskStarts? ==> step.bytesPerSecond > 0.0)
      modifies this
      ensures Valid() && (OfTask(step) ==> Continues(step, old(task), old(cancelling), old(gate), old(trace), task, trace))
      ensures (step.TimerFires? && old(timer)) || (step.CommitEnds? && old(handler).Committing?) ==> !pending
    {
      if OfTask(step) {
        DoTask(step);
      } else {
        DoHandler(step);
      }
    }
  }

  predicate OfTask(step: Step) {
    || step.TaskStarts? || step.TaskFetches? || step.TaskSlices? || step.TaskEndsSynthesis?
    || step.TaskCompletes? || step.TaskFails? || step.TaskThrows? || step.TaskLeaves?
  }

  /** Where a step takes the response task, and what it sends. */
  ghost predicate Continues(step: Step, task: Task, cancelling: bool, gate: bool, t: Trace, task': Task, t': Trace) {
    match step
    case TaskStarts(speaks, _, _) =>
      task.Scheduled? ==> if cancelling then task'.Idle? else if speaks then task'.Fetching? && t' != t else task'.Rejecting?
    case TaskFetches(chunk) =>
      task.Fetching? && !cancelling ==>
        if chunk == None then task' == Synthesised(task.response)
        else task' == if chunk.value != [] then AtSlice(task.response) else task
    case TaskSlices(_) =>
      && ((task.AtSlice? || task.Sleeping?) && !gate && !cancelling ==> task' == AtGate(task.response))
      && (((task.AtSlice? || task.Sleeping?) && gate) || task.Released? ==>
            !cancelling ==> if t' == t then task' == Sleeping(task.response) else t'.Then? && t'.before == t && t'.event.Delta?)
    case TaskEndsSynthesis => task.Synthesised? && !cancelling ==> t' == Then(t, AudioDone(task.response))
    case TaskCompletes =>
      && (task.Closing? && !cancelling ==> t' == Then(t, Done(task.response, Completed)))
      && (task.Failing? ==> t' == Then(t, Done(task.response, Failed)))
    case TaskFails => (task.Fetching? || task.Synthesised?) && !cancelling ==> task' == Failing(task.response) && t' == Then(t, Error)
    case TaskThrows => cancelling && Running(task) ==> t' == Then(t, Done(task.response, Cancelled))
    case TaskLeaves => task.Finishing? || (task.Rejecting? && !cancelling) ==> task'.Idle?
    case _ => true
  }

  /** Two events of an orderly trace: a response is done at most once, and then sends no more. */
  ghost predicate InTurn(a: Sent, b: Sent) {
    && (a.Done? && (b.Done? || b.Delta? || b.AudioDone?) ==> a.response != b.response)
    && (a.Delta? || a.Done? || a.Created? ==> b.Created? ==> a.response != b.response)
  }

  function Events(t: Trace): seq<Sent> {
    if t.Nothing? then [] else Events(t.before) + [t.event]
  }

  lemma {:induction false} PastEvent(t: Trace, i: nat)
    requires Orderly(t) && i < |Events(t)|
    ensures var a := Events(t)[i];
            && (a.Done? ==> IsDone(t, a.response))
            && (a.Created? || a.Delta? || a.Done? ==> IsCreated(t, a.response))
  {
    if i < |Events(t.before)| { PastEvent(t.before, i); }
  }

  lemma {:induction false} OrderlyInTurn(t: Trace, i: nat, j: nat)
    requires Orderly(t) && i < j < |Events(t)|
    ensures InTurn(Events(t)[i], Events(t)[j])
  {
    if j < |Events(t.before)| {
      OrderlyInTurn(t.before, i, j);
    } else {
      PastEvent(t.before, i);
    }
  }

  /** Every run, whatever the order of the steps. */
  method Run(s: RealtimeSession, steps: seq<Step>)
    requires s.Valid() && forall step :: step in steps && step.TaskStarts? ==> step.bytesPerSecond > 0.0
    modifies s
    ensures s.Valid()
    ensures forall i, j :: 0 <= i < j < |Events(s.trace)| ==> InTurn(Events(s.trace)[i], Events(s.trace)[j])
    ensures forall r: nat :: IsCreated(s.trace, r) ==> IsDone(s.trace, r) || (Running(s.task) && s.task.response == r)
    ensures s.gate == !s.pending && (s.pending ==> (s.timer || s.handler.Committing?) && s.slips <= 1)
    ensures Running(s.task) && s.pace.lead.Some? ==>
              s.pace.Valid() && Held(s.trace, s.task.response, s.pace.bytesPerSecond).seconds
                                <= s.pace.lead.value + Seconds(CHUNK_SIZE, s.pace.bytesPerSecond)
  {
    for k := 0 to |steps|
      invariant s.Valid()
    {
      s.Do(steps[k]);
    }
    forall i, j | 0 <= i < j < |Events(s.trace)|
      ensures InTurn(Events(s.trace)[i], Events(s.trace)[j])
    {
      OrderlyInTurn(s.trace, i, j);
    }
  }

  /** A run in which a delta is sent while a barge-in is pending: the task was waiting at the gate,
      the gate opened because the utterance interrupted nothing, and speech started again before the
      task had its turn. */
  method DeltaInBargeIn() returns (s: RealtimeSession)
    ensures s.Valid() && s.pending && !s.gate && s.trace.Then? && s.trace.event.Delta?
  {
    s := new RealtimeSession(true, false, 0);
    s.Create();
    s.Start(true, 48000.0, s.clock);
    s.Fetch(Some([0]));
    WaitsForGate(s);
    GateOpens(s);
    SlipThrough(s);
  }

  /** A reply is being spoken, and the client is listened to. */
  ghost predicate Replying(s: RealtimeSession)
    reads s
  {
    && s.Valid() && s.handler.Ready? && s.cancellable && !s.cancelling
    && s.interrupts && !s.blind && s.pace.lead == None
  }

  /** Speech begins, and the task comes to the gate. */
  method WaitsForGate(s: RealtimeSession)
    requires Replying(s) && s.task.AtSlice? && !s.pending
    modifies s
    ensures Replying(s) && s.task.AtGate? && s.pending
  {
    s.StartSpeech();
    var _ := s.Slice(s.clock);
  }

  /** It stops, and was no interruption. */
  method GateOpens(s: RealtimeSession)
    requires Replying(s) && s.task.AtGate? && s.pending
    modifies s
    ensures Replying(s) && s.task.Released? && !s.pending
  {
    s.StopSpeech(false);
    s.EndCommit(false);
  }

  method SlipThrough(s: RealtimeSession)
    requires Replying(s) && s.task.Released? && !s.pending
    modifies s
    ensures s.Valid() && s.pending && !s.gate && s.trace.Then? && s.trace.event.Delta?
  {
    s.StartSpeech();
    var _ := s.Slice(s.clock);
  }
}
