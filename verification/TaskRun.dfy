/** Whole runs of the agent task client: the capability probe, the submission, the byte loop, external
    cancellation and the deadline, and how every run ends. */
module TaskRun {
  import opened Optional
  import opened TaskFraming
  import opened TaskProtocol

  // ---- The byte loop as a function ----------------------------------------------------------------

  /** Reading goes on, or a frame or byte stopped it with an error code. */
  datatype Progress = Going(client: Client, framing: Framing) | Stopped(client: Client, code: ErrorCode)

  function CodeOf(error: Error): ErrorCode { if error == SizeLimit then ResultSizeLimit else UpstreamIncomplete }

  /** Bytes are read until a final frame or an error. */
  function Receive(cfg: Config, c: Client, f: Framing, bytes: seq<Byte>): Progress
    decreases |bytes|
  {
    if bytes == [] || c.final.Some? then Going(c, f)
    else
      match PushByte(f, bytes[0])
      case Fail(error) => Stopped(c, CodeOf(error))
      case Quiet(g) => Receive(cfg, c, g, bytes[1..])
      case Frame(g, payload) =>
        match Consume(cfg, c, payload)
        case Throws(c', code) => Stopped(c', code)
        case Done(c') => Receive(cfg, c', g, bytes[1..])
  }

  /** The same from the list of frames and how the bytes end. */
  function ConsumeAll(cfg: Config, c: Client, s: Stream): (Client, Option<ErrorCode>)
    decreases |s.frames|
  {
    if c.final.Some? then (c, None)
    else if s.frames == [] then (c, if s.end.Failed? then Some(CodeOf(s.end.error)) else None)
    else
      match Consume(cfg, c, s.frames[0])
      case Throws(c', code) => (c', Some(code))
      case Done(c') => ConsumeAll(cfg, c', Stream(s.frames[1..], s.end))
  }

  function Verdict(p: Progress): (Client, Option<ErrorCode>) {
    if p.Going? then (p.client, None) else (p.client, Some(p.code))
  }

  /** What the client becomes depends on the bytes only through the frames they spell. */
  lemma {:induction false} ReceiveConsumesFrames(cfg: Config, c: Client, f: Framing, bytes: seq<Byte>)
    ensures Verdict(Receive(cfg, c, f, bytes)) == ConsumeAll(cfg, c, Frames(f, bytes))
    decreases |bytes|
  {
    hide Consume;
    if bytes != [] && c.final.None? {
      var event := PushByte(f, bytes[0]);
      if event.Quiet? {
        ReceiveConsumesFrames(cfg, c, event.framing, bytes[1..]);
      } else if event.Frame? {
        var rest := Frames(event.framing, bytes[1..]);
        assert ([event.payload] + rest.frames)[1..] == rest.frames;
        var r := Consume(cfg, c, event.payload);
        if r.Done? { ReceiveConsumesFrames(cfg, r.client, event.framing, bytes[1..]); }
      }
    }
  }

  function Then(cfg: Config, p: Progress, bytes: seq<Byte>): Progress {
    if p.Going? then Receive(cfg, p.client, p.framing, bytes) else p
  }

  lemma {:induction false} ReceiveConcat(cfg: Config, c: Client, f: Framing, a: seq<Byte>, b: seq<Byte>)
    ensures Receive(cfg, c, f, a + b) == Then(cfg, Receive(cfg, c, f, a), b)
    decreases |a|
  {
    hide Consume, PushByte;
    if a == [] || c.final.Some? {
      if a == [] { assert a + b == b; }
    } else {
      assert (a + b)[0] == a[0] && (a + b)[1..] == a[1..] + b;
      match PushByte(f, a[0])
      case Fail(_) =>
      case Quiet(g) => ReceiveConcat(cfg, c, g, a[1..], b);
      case Frame(g, payload) =>
        var r := Consume(cfg, c, payload);
        if r.Done? { ReceiveConcat(cfg, r.client, g, a[1..], b); }
    }
  }

  function ReceiveChunks(cfg: Config, c: Client, f: Framing, chunks: seq<seq<Byte>>): Progress {
    if chunks == [] then Going(c, f)
    else Then(cfg, ReceiveChunks(cfg, c, f, chunks[..|chunks| - 1]), chunks[|chunks| - 1])
  }

  /** Client, callbacks and error depend only on the concatenated bytes, not on how they were chunked. */
  lemma {:induction false} RunIgnoresChunking(cfg: Config, c: Client, f: Framing, chunks: seq<seq<Byte>>)
    ensures ReceiveChunks(cfg, c, f, chunks) == Receive(cfg, c, f, Flatten(chunks))
    decreases |chunks|
  {
    if chunks != [] {
      RunIgnoresChunking(cfg, c, f, chunks[..|chunks| - 1]);
      ReceiveConcat(cfg, c, f, Flatten(chunks[..|chunks| - 1]), chunks[|chunks| - 1]);
    }
  }

  // ---- The whole run ------------------------------------------------------------------------------

  datatype Phase = Probing | Posting | Reading | Over

  /** `received` remembers the bytes handed to the reader; `aborted` is the transport's abort signal. */
  datatype Run = Run(client: Client, framing: Framing, phase: Phase, aborted: bool, received: seq<Byte>)

  datatype Answer = Accepting | Unavailable | OtherStatus | NotAStream

  datatype Act =
    | Abort(timeout: bool)            // the caller's signal, or a deadline timer
    | Capability(ok: bool, bodyFits: bool)
    | Response(answer: Answer)
    | Chunk(bytes: seq<Byte>)
    | StreamEnds
    | NetworkError
    | CancelRefused                   // the cancel request failed, or its grace period ran out
    | AbortObserved                   // a pending fetch or read sees the aborted transport

  const START: Run := Run(FRESH_CLIENT, FRESH_FRAMING, Probing, false, [])

  /** `finally`: whatever happened, the run is settled. */
  function Settle(r: Run): Run { r.(client := r.client.(settled := true), phase := Over, aborted := true) }

  /** `catch`: the first error code stays, and a submitted run that was not cancelled yet is cancelled. */
  function Caught(r: Run, code: ErrorCode): Run {
    var c := r.client.(errorCode := if r.client.errorCode.Some? then r.client.errorCode else Some(code));
    Settle(r.(client := if c.submitted && !c.cancelled then Cancel(c, AgentFailed) else c))
  }

  function CancelRun(r: Run, code: ErrorCode): Run {
    var c := Cancel(r.client, code);
    r.(client := c, aborted := r.aborted || (c.cancelled && !c.submitted))
  }

  function ReceiveChunk(cfg: Config, r: Run, bytes: seq<Byte>): Run {
    match Receive(cfg, r.client, r.framing, bytes)
    case Stopped(c, code) => Caught(r.(client := c, received := r.received + bytes), code)
    case Going(c, f) =>
      var r' := r.(client := c, framing := f, received := r.received + bytes);
      if c.final.Some? then Settle(r') else r'
  }

  function Next(cfg: Config, r: Run, act: Act): Run {
    if r.phase.Over? then r else
    match act
    case Abort(timeout) => CancelRun(r, if timeout then TurnTimeout else AgentFailed)
    case Capability(ok, bodyFits) =>
      if !r.phase.Probing? then r
      else if !ok then Settle(r.(client := r.client.(errorCode := if r.client.errorCode.Some? then r.client.errorCode
        else Some(TaskUnavailable))))
      else if r.client.cancelled then Settle(r)
      else if !bodyFits then Caught(r, ResultSizeLimit)
      else r.(client := r.client.(submitted := true), phase := Posting)
    case Response(answer) =>
      if !r.phase.Posting? then r else
      (match answer
       case Accepting => r.(phase := Reading)
       case Unavailable => Caught(r, TaskUnavailable)
       case OtherStatus => Caught(r, AgentFailed)
       case NotAStream => Caught(r, UpstreamIncomplete))
    case Chunk(bytes) => if r.phase.Reading? then ReceiveChunk(cfg, r, bytes) else r
    case StreamEnds => if r.phase.Reading? then Caught(r, UpstreamIncomplete) else r
    case NetworkError => if r.phase.Posting? || r.phase.Reading? then Caught(r, AgentFailed) else r
    case CancelRefused => if r.client.cancelPosts > 0 then r.(aborted := true) else r
    case AbortObserved => if r.aborted && (r.phase.Posting? || r.phase.Reading?) then Caught(r, AgentFailed) else r
  }

  function Exec(cfg: Config, acts: seq<Act>): Run {
    if acts == [] then START else Next(cfg, Exec(cfg, acts[..|acts| - 1]), acts[|acts| - 1])
  }

  ghost predicate Inv(cfg: Config, r: Run) {
    && Sound(r.client)
    && (r.phase.Over? <==> r.client.settled)
    && (r.phase.Over? ==> r.client.final.Some? || r.client.errorCode.Some?)
    && (!r.phase.Over? ==>
          && r.client.final.None?
          && Frames(FRESH_FRAMING, r.received).end == Open(r.framing)
          && Consumed(cfg, r.client, Frames(FRESH_FRAMING, r.received).frames))
    && (r.client.final.Some? ==> EndsAtFinal(cfg, r.client, Frames(FRESH_FRAMING, r.received).frames))
    && r.client.delivered <= Deltas(cfg, Frames(FRESH_FRAMING, r.received).frames)
  }

  /** The client consumed the frames up to the n-th, which is its final one. */
  ghost predicate EndsAt(cfg: Config, c: Client, frames: seq<seq<Byte>>, n: nat) {
    0 < n <= |frames| && Consumed(cfg, c, frames[..n]) && c.final.Some?
      && cfg.parse(frames[n - 1]) == Some(Obj(c.final.value))
  }

  ghost predicate EndsAtFinal(cfg: Config, c: Client, frames: seq<seq<Byte>>) {
    exists n: nat :: EndsAt(cfg, c, frames, n)
  }

  /** The final frame of a client is the frame that it just consumed. */
  lemma FinalIsLastFrame(cfg: Config, c: Client, data: seq<Byte>)
    requires c.final.None?
    ensures var r := Consume(cfg, c, data);
        r.client.final.Some? ==> r.Done? && cfg.parse(data) == Some(Obj(r.client.final.value))
  {
    hide AcceptedFrame, UsageFrame, ContentFrame, ActivityFrame, DelegationFrame, FinalFrame, Metadata, Is;
    var value := cfg.parse(data);
    if value.Some? && value.value.Obj? {
      OnlyFinalEnds(cfg, c, value.value.fields);
      FinalFrameEnds(cfg, c, value.value.fields);
    }
  }

  lemma OnlyFinalEnds(cfg: Config, c: Client, v: Fields)
    ensures AcceptedFrame(cfg, c, v).client.final == c.final && UsageFrame(cfg, c, v).client.final == c.final
    ensures ContentFrame(cfg, c, v).client.final == c.final
    ensures ActivityFrame(cfg, c, v).client.final == c.final && DelegationFrame(cfg, c, v).client.final == c.final
  {
    hide AcceptedFrame, UsageFrame, ContentFrame, ActivityFrame, DelegationFrame;
    CheckedFrameDoesNotEnd(cfg, c, v);
    ContentDoesNotEnd(cfg, c, v);
    ActivityDoesNotEnd(cfg, c, v);
    DelegationDoesNotEnd(cfg, c, v);
  }

  lemma CheckedFrameDoesNotEnd(cfg: Config, c: Client, v: Fields)
    ensures AcceptedFrame(cfg, c, v).client.final == c.final && UsageFrame(cfg, c, v).client.final == c.final
  {
    hide ReadUsage, KeysWithin;
  }

  lemma ContentDoesNotEnd(cfg: Config, c: Client, v: Fields)
    ensures ContentFrame(cfg, c, v).client.final == c.final
  {
    hide KeysWithin, HasInk;
  }

  lemma ActivityDoesNotEnd(cfg: Config, c: Client, v: Fields)
    ensures ActivityFrame(cfg, c, v).client.final == c.final
  {
    hide ActivityFieldsOk;
  }

  lemma DelegationDoesNotEnd(cfg: Config, c: Client, v: Fields)
    ensures DelegationFrame(cfg, c, v).client.final == c.final
  {
    hide KeysWithin, IsOneOf;
  }

  lemma FinalFrameEnds(cfg: Config, c: Client, v: Fields)
    requires c.final.None?
    ensures var r := FinalFrame(cfg, c, v); r.client.final.Some? ==> r.Done? && r.client.final == Some(v)
  {
    hide FinalAnswer, FinalProblem, ReadUsage;
    FinalAnswerEffect(c, v);
  }

  lemma EndsLater(cfg: Config, c: Client, frames: seq<seq<Byte>>, n: nat, more: seq<seq<Byte>>)
    requires EndsAt(cfg, c, frames, n)
    ensures EndsAtFinal(cfg, c, frames + more)
  {
    assert (frames + more)[..n] == frames[..n];
    assert EndsAt(cfg, c, frames + more, n);
  }

  lemma SettledEnds(cfg: Config, c: Client, frames: seq<seq<Byte>>)
    requires EndsAtFinal(cfg, c, frames)
    ensures EndsAtFinal(cfg, c.(settled := true), frames)
  {
    hide Deltas, TotalLength;
    var n: nat :| EndsAt(cfg, c, frames, n);
    assert EndsAt(cfg, c.(settled := true), frames, n);
  }

  /** Cancelling changes nothing that the account of consumed frames speaks of. */
  lemma CancelKeepsAccount(cfg: Config, c: Client, code: ErrorCode, frames: seq<seq<Byte>>)
    requires Consumed(cfg, c, frames)
    ensures Consumed(cfg, Cancel(c, code), frames) && Progresses(c, Cancel(c, code))
  {
    CancelIsSound(c, code);
  }

  lemma CaughtIsSound(r: Run, code: ErrorCode)
    requires Sound(r.client)
    ensures var r' := Caught(r, code);
            Sound(r'.client) && r'.client.errorCode.Some? && r'.client.delivered == r.client.delivered
              && Progresses(r.client, r'.client)
  {
  }

  /** Delivered deltas stay a prefix when more frames arrive. */
  lemma {:induction false} DeltasExtend(cfg: Config, frames: seq<seq<Byte>>, more: seq<seq<Byte>>)
    ensures Deltas(cfg, frames) <= Deltas(cfg, frames + more)
    decreases |more|
  {
    if more == [] {
      assert frames + more == frames;
    } else {
      var before := more[..|more| - 1];
      DeltasExtend(cfg, frames, before);
      assert (frames + more)[..|frames + more| - 1] == frames + before;
    }
  }

  lemma PrefixTrans<T>(a: seq<T>, b: seq<T>, c: seq<T>)
    requires a <= b && b <= c
    ensures a <= c
  {
  }

  lemma ProgressTrans(a: Client, b: Client, c: Client)
    requires Progresses(a, b) && Progresses(b, c)
    ensures Progresses(a, c)
  {
    PrefixTrans(a.delivered, b.delivered, c.delivered);
  }

  /** Consuming a list of frames keeps the account; what is delivered is a prefix of all their deltas. */
  lemma {:induction false} ConsumeAllKeeps(cfg: Config, c: Client, frames: seq<seq<Byte>>, s: Stream)
    requires Consumed(cfg, c, frames) && c.final.None?
    ensures
      var r := ConsumeAll(cfg, c, s);
      && Sound(r.0) && Progresses(c, r.0) && SamePhase(c, r.0)
      && r.0.delivered <= Deltas(cfg, frames + s.frames)
      && (r.1.None? && r.0.final.None? ==> Consumed(cfg, r.0, frames + s.frames))
      && (r.0.final.Some? ==> r.1.None? && EndsAtFinal(cfg, r.0, frames + s.frames))
    decreases |s.frames|
  {
    hide Consume, Consumed, Deltas, EndsAtFinal;
    ConsumedFacts(cfg, c, frames);
    if s.frames == [] {
      assert frames + s.frames == frames;
    } else {
      var r := Consume(cfg, c, s.frames[0]);
      ConsumeKeeps(cfg, c, frames, s.frames[0]);
      FinalIsLastFrame(cfg, c, s.frames[0]);
      DeltasExtend(cfg, frames, s.frames);
      PrefixTrans(c.delivered, Deltas(cfg, frames), Deltas(cfg, frames + s.frames));
      if r.Done? {
        assert frames + [s.frames[0]] + s.frames[1..] == frames + s.frames;
        ConsumedFacts(cfg, r.client, frames + [s.frames[0]]);
        DeltasExtend(cfg, frames + [s.frames[0]], s.frames[1..]);
        PrefixTrans(r.client.delivered, Deltas(cfg, frames + [s.frames[0]]), Deltas(cfg, frames + s.frames));
        if r.client.final.Some? {
          var n := |frames| + 1;
          assert (frames + [s.frames[0]])[..n] == frames + [s.frames[0]];
          assert EndsAt(cfg, r.client, frames + [s.frames[0]], n);
          EndsLater(cfg, r.client, frames + [s.frames[0]], n, s.frames[1..]);
        } else {
          ConsumeAllKeeps(cfg, r.client, frames + [s.frames[0]], Stream(s.frames[1..], s.end));
          ProgressTrans(c, r.client, ConsumeAll(cfg, c, s).0);
        }
      }
    }
  }

  lemma ConsumedFacts(cfg: Config, c: Client, frames: seq<seq<Byte>>)
    requires Consumed(cfg, c, frames)
    ensures Sound(c) && c.delivered <= Deltas(cfg, frames)
  {
  }

  /** Reading on from an open state gives the frames read so far followed by the new ones. */
  lemma ChunkKeeps(cfg: Config, r: Run, bytes: seq<Byte>)
    requires Inv(cfg, r) && r.phase.Reading?
    ensures Inv(cfg, ReceiveChunk(cfg, r, bytes)) && Progresses(r.client, ReceiveChunk(cfg, r, bytes).client)
  {
    hide Consumed, Receive, Frames, ConsumeAll, Deltas, EndsAtFinal;
    var before, s := Frames(FRESH_FRAMING, r.received), Frames(r.framing, bytes);
    FramesConcat(FRESH_FRAMING, r.received, bytes);
    ReceiveConsumesFrames(cfg, r.client, r.framing, bytes);
    ConsumeAllKeeps(cfg, r.client, before.frames, s);
    assert Frames(FRESH_FRAMING, r.received + bytes) == Stream(before.frames + s.frames, s.end);
    var p := Receive(cfg, r.client, r.framing, bytes);
    if p.Stopped? {
      CaughtIsSound(r.(client := p.client, received := r.received + bytes), p.code);
      ProgressTrans(r.client, p.client, ReceiveChunk(cfg, r, bytes).client);
    } else if p.client.final.None? {
      OpenStaysOpen(cfg, r.client, r.framing, bytes);
    } else {
      SettledEnds(cfg, p.client, before.frames + s.frames);
    }
  }

  lemma {:induction false} OpenStaysOpen(cfg: Config, c: Client, f: Framing, bytes: seq<Byte>)
    requires c.final.None?
    ensures var p := Receive(cfg, c, f, bytes);
        p.Going? && p.client.final.None? ==> Frames(f, bytes).end == Open(p.framing)
    decreases |bytes|
  {
    hide Consume;
    if bytes != [] {
      match PushByte(f, bytes[0])
      case Fail(_) =>
      case Quiet(g) => OpenStaysOpen(cfg, c, g, bytes[1..]);
      case Frame(g, payload) =>
        var r := Consume(cfg, c, payload);
        if r.Done? && r.client.final.None? { OpenStaysOpen(cfg, r.client, g, bytes[1..]); }
    }
  }

  lemma CaughtKeeps(cfg: Config, r: Run, code: ErrorCode)
    requires Inv(cfg, r) && !r.phase.Over?
    ensures Inv(cfg, Caught(r, code)) && Progresses(r.client, Caught(r, code).client)
  {
    hide Frames, Deltas, Consumed;
    CaughtIsSound(r, code);
  }

  lemma ProbeKeeps(cfg: Config, r: Run, ok: bool, bodyFits: bool)
    requires Inv(cfg, r) && r.phase.Probing?
    ensures var r' := Next(cfg, r, Capability(ok, bodyFits)); Inv(cfg, r') && Progresses(r.client, r'.client)
  {
    hide Frames, Deltas, TotalLength, SeqOf, ReceiveChunk;
    CaughtKeeps(cfg, r, ResultSizeLimit);
  }

  lemma AbortKeeps(cfg: Config, r: Run, code: ErrorCode)
    requires Inv(cfg, r) && !r.phase.Over?
    ensures Inv(cfg, CancelRun(r, code)) && Progresses(r.client, CancelRun(r, code).client)
  {
    hide Frames, Deltas, Consumed, Cancel;
    CancelKeepsAccount(cfg, r.client, code, Frames(FRESH_FRAMING, r.received).frames);
    CancelIsSound(r.client, code);
    CancelKeepsDelivered(r.client, code);
  }

  lemma CancelKeepsDelivered(c: Client, code: ErrorCode)
    ensures var c' := Cancel(c, code); c'.delivered == c.delivered && c'.final == c.final && c'.settled == c.settled
  {
  }

  lemma NextKeeps(cfg: Config, r: Run, act: Act)
    requires Inv(cfg, r)
    ensures Inv(cfg, Next(cfg, r, act)) && Progresses(r.client, Next(cfg, r, act).client)
  {
    hide Frames, Deltas, Consumed, ReceiveChunk, Caught, CancelRun;
    if !r.phase.Over? {
      match act
      case Abort(timeout) => AbortKeeps(cfg, r, if timeout then TurnTimeout else AgentFailed);
      case Capability(ok, bodyFits) => if r.phase.Probing? { ProbeKeeps(cfg, r, ok, bodyFits); }
      case Response(answer) =>
        CaughtKeeps(cfg, r, TaskUnavailable);
        CaughtKeeps(cfg, r, AgentFailed);
        CaughtKeeps(cfg, r, UpstreamIncomplete);
      case Chunk(bytes) => if r.phase.Reading? { ChunkKeeps(cfg, r, bytes); }
      case StreamEnds => CaughtKeeps(cfg, r, UpstreamIncomplete);
      case NetworkError => CaughtKeeps(cfg, r, AgentFailed);
      case AbortObserved => CaughtKeeps(cfg, r, AgentFailed);
      case CancelRefused =>
    }
  }

  lemma {:induction false} Reachable(cfg: Config, acts: seq<Act>)
    ensures Inv(cfg, Exec(cfg, acts))
  {
    if acts != [] {
      Reachable(cfg, acts[..|acts| - 1]);
      NextKeeps(cfg, Exec(cfg, acts[..|acts| - 1]), acts[|acts| - 1]);
    }
  }

  // ---- Main results -------------------------------------------------------------------------------

  /** Every run that ends returns a final frame or an error code, and its observation is complete exactly
      when it has a final frame with complete usage. */
  lemma EveryRunReturns(cfg: Config, acts: seq<Act>)
    requires Exec(cfg, acts).phase.Over?
    ensures var c := Exec(cfg, acts).client;
            && (c.final.Some? || c.errorCode.Some?)
            && (c.observationComplete <==> c.final.Some? && c.usage.finalized == c.usage.started)
            && UsageOk(c.usage)
  {
    Reachable(cfg, acts);
  }

  /** At most one cancel request is ever sent, only after submission and only by a cancelled run. */
  lemma OneCancelRequest(cfg: Config, acts: seq<Act>)
    ensures var c := Exec(cfg, acts).client;
            c.cancelPosts <= 1 && (c.cancelPosts == 1 ==> c.submitted && c.cancelled && c.errorCode.Some?)
  {
    Reachable(cfg, acts);
  }

  /** The text handed to onContent is the in-order sequence of the deltas received: all of them while the
      run is reading and not cancelled, a prefix of them in any case. A run that returns a final frame and was
      never cancelled has handed over exactly the deltas of the frames up to the final one. None of these is
      more than 64,000 units. */
  lemma ContentIsInOrder(cfg: Config, acts: seq<Act>)
    ensures
      var r := Exec(cfg, acts);
      var frames := Frames(FRESH_FRAMING, r.received).frames;
      && r.client.delivered <= Deltas(cfg, frames)
      && (r.phase.Reading? && !r.client.cancelled && cfg.onContent.Some? ==> r.client.delivered == Deltas(cfg, frames))
      && (r.phase.Reading? ==> TotalLength(Deltas(cfg, frames)) <= MAX_ANSWER_CHARACTERS)
      && (r.client.final.Some? ==> exists n: nat :: 0 < n <= |frames| && DeliveredUpToFinal(cfg, r.client, frames, n))
  {
    Reachable(cfg, acts);
    var r := Exec(cfg, acts);
    var frames := Frames(FRESH_FRAMING, r.received).frames;
    if r.client.final.Some? {
      var n: nat :| EndsAt(cfg, r.client, frames, n);
      assert DeliveredUpToFinal(cfg, r.client, frames, n);
    }
  }

  /** The n-th frame is the client's final one, and the deltas up to it are within the limit and, unless the
      client was cancelled, exactly what was handed over. */
  ghost predicate DeliveredUpToFinal(cfg: Config, c: Client, frames: seq<seq<Byte>>, n: nat)
    requires c.final.Some? && 0 < n <= |frames|
  {
    && cfg.parse(frames[n - 1]) == Some(Obj(c.final.value))
    && c.delivered <= Deltas(cfg, frames[..n]) && TotalLength(Deltas(cfg, frames[..n])) <= MAX_ANSWER_CHARACTERS
    && (!c.cancelled && cfg.onContent.Some? ==> c.delivered == Deltas(cfg, frames[..n]))
  }

  /** Between any two moments of a run: usage counts never decrease, the acceptance and the cancellation
      latch, the first error code and the final frame stay, and after a cancellation nothing more is
      delivered and no further cancel request is sent. */
  lemma {:induction false} RunsOnlyProgress(cfg: Config, past: seq<Act>, acts: seq<Act>)
    requires past <= acts
    ensures Progresses(Exec(cfg, past).client, Exec(cfg, acts).client)
    decreases |acts|
  {
    if past != acts {
      var before := acts[..|acts| - 1];
      assert past <= before;
      RunsOnlyProgress(cfg, past, before);
      Reachable(cfg, before);
      NextKeeps(cfg, Exec(cfg, before), acts[|acts| - 1]);
      ProgressTrans(Exec(cfg, past).client, Exec(cfg, before).client, Exec(cfg, acts).client);
    }
  }
}
