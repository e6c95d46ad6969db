/** How a run of the agent task client goes on and how it ends: what each event does in each phase, with which
    error code, and when a cancel request is sent. */
module TaskEndings {
  import opened Optional
  import opened TaskFraming
  import opened TaskProtocol
  import opened TaskRun

  // ---- The cancel request ---------------------------------------------------------------------------

  /** Exactly the cancelled submitted runs send a cancel request, and a submitted run, or one that goes on, has an
      error code exactly when it is cancelled. */
  ghost predicate Requested(c: Client) {
    && c.cancelPosts == (if c.submitted && c.cancelled then 1 else 0)
    && (c.submitted || !c.settled ==> (c.errorCode.Some? <==> c.cancelled))
    && (c.cancelled ==> c.errorCode.Some?)
  }

  ghost predicate KeepsRequested(c: Client, c': Client) { SamePhase(c, c') && (Requested(c) ==> Requested(c')) }

  /** The callbacks of a frame may cancel the run, and nothing else about a frame touches the cancellation. */
  lemma BodyRequests(cfg: Config, c: Client, v: Fields)
    ensures KeepsRequested(c, Body(cfg, c, v).client)
  {
    hide AcceptedFrame, UsageFrame, ContentFrame, ActivityFrame, DelegationFrame, FinalFrame, KeepsRequested, Is, Get;
    var kind := Get(v, "type");
    if Is(kind, "accepted") || Is(kind, "usage") {
      CheckedRequests(cfg, c, v);
    } else if Is(kind, "content_delta") {
      ContentRequests(cfg, c, v);
    } else if Is(kind, "activity") || Is(kind, "delegation_error") {
      CallRequests(cfg, c, v);
    } else {
      FinalRequests(cfg, c, v);
      UntouchedRequests(c);
    }
  }

  lemma UntouchedRequests(c: Client)
    ensures KeepsRequested(c, c)
  {}

  lemma CheckedRequests(cfg: Config, c: Client, v: Fields)
    ensures KeepsRequested(c, AcceptedFrame(cfg, c, v).client) && KeepsRequested(c, UsageFrame(cfg, c, v).client)
  {
    hide ReadUsage, KeysWithin, IsCount;
  }

  lemma ContentRequests(cfg: Config, c: Client, v: Fields)
    ensures KeepsRequested(c, ContentFrame(cfg, c, v).client)
  {
    hide HasInk, KeysWithin, IsText;
  }

  lemma CallRequests(cfg: Config, c: Client, v: Fields)
    ensures KeepsRequested(c, ActivityFrame(cfg, c, v).client) && KeepsRequested(c, DelegationFrame(cfg, c, v).client)
  {
    hide ActivityFieldsOk, KeysWithin, IsOneOf;
  }

  lemma FinalRequests(cfg: Config, c: Client, v: Fields)
    ensures KeepsRequested(c, FinalFrame(cfg, c, v).client)
  {
    hide FinalAnswer, FinalProblem, ReadUsage;
    FinalAnswerEffect(c, v);
  }

  lemma ConsumeRequests(cfg: Config, c: Client, data: seq<Byte>)
    ensures KeepsRequested(c, Consume(cfg, c, data).client)
  {
    var value := cfg.parse(data);
    if value.Some? && value.value.Obj? { BodyRequests(cfg, c, value.value.fields); }
    hide Body, Metadata, Is, IsCount;
  }

  lemma {:induction false} ReceiveRequests(cfg: Config, c: Client, f: Framing, bytes: seq<Byte>)
    ensures KeepsRequested(c, Receive(cfg, c, f, bytes).client)
    decreases |bytes|
  {
    hide Consume, Requested;
    if bytes != [] && c.final.None? {
      match PushByte(f, bytes[0])
      case Fail(_) =>
      case Quiet(g) => ReceiveRequests(cfg, c, g, bytes[1..]);
      case Frame(g, payload) =>
        ConsumeRequests(cfg, c, payload);
        var r := Consume(cfg, c, payload);
        if r.Done? { ReceiveRequests(cfg, r.client, g, bytes[1..]); }
    }
  }

  // ---- Every run ------------------------------------------------------------------------------------

  ghost predicate PhaseOk(r: Run) {
    && (r.phase.Probing? ==> !r.client.submitted) && (r.phase.Posting? || r.phase.Reading? ==> r.client.submitted)
    && (r.phase.Over? && r.client.submitted ==> r.client.final.Some? || r.client.cancelled)
    && Requested(r.client)
  }

  lemma CaughtRequests(r: Run, code: ErrorCode)
    requires Requested(r.client) && (r.client.settled ==> r.phase.Over?) && !r.phase.Over?
    ensures PhaseOk(Caught(r, code))
  {}

  lemma ChunkRequests(cfg: Config, r: Run, bytes: seq<Byte>)
    requires PhaseOk(r) && r.phase.Reading? && !r.client.settled
    ensures PhaseOk(ReceiveChunk(cfg, r, bytes))
  {
    ReceiveRequests(cfg, r.client, r.framing, bytes);
    var p := Receive(cfg, r.client, r.framing, bytes);
    hide Receive;
    if p.Stopped? { CaughtRequests(r.(client := p.client, received := r.received + bytes), p.code); }
  }

  lemma NextRequests(cfg: Config, r: Run, act: Act)
    requires PhaseOk(r) && (r.client.settled ==> r.phase.Over?)
    ensures PhaseOk(Next(cfg, r, act))
  {
    hide Caught, ReceiveChunk;
    if !r.phase.Over? {
      match act
      case Capability(_, _) => CaughtRequests(r, ResultSizeLimit);
      case Response(_) =>
        CaughtRequests(r, TaskUnavailable);
        CaughtRequests(r, AgentFailed);
        CaughtRequests(r, UpstreamIncomplete);
      case Chunk(bytes) => if r.phase.Reading? { ChunkRequests(cfg, r, bytes); }
      case StreamEnds => CaughtRequests(r, UpstreamIncomplete);
      case Abort(timeout) =>
      case CancelRefused =>
      case _ => CaughtRequests(r, AgentFailed);
    }
  }

  lemma {:induction false} PhasesReachable(cfg: Config, acts: seq<Act>)
    ensures PhaseOk(Exec(cfg, acts))
  {
    if acts != [] {
      var before := acts[..|acts| - 1];
      PhasesReachable(cfg, before);
      Reachable(cfg, before);
      hide PhaseOk;
      NextRequests(cfg, Exec(cfg, before), acts[|acts| - 1]);
    }
  }

  /** In every run: the agent task is submitted exactly when the probing is over without an end; a cancel request was
      sent exactly when a submitted run was cancelled, and then once; a submitted run has an error code exactly
      when it was cancelled; and one that ends without a final frame was. */
  lemma CancelRequestIff(cfg: Config, acts: seq<Act>)
    ensures var r := Exec(cfg, acts);
            && (r.phase.Posting? || r.phase.Reading? ==> r.client.submitted)
            && (r.phase.Probing? ==> !r.client.submitted)
            && r.client.cancelPosts == (if r.client.submitted && r.client.cancelled then 1 else 0)
            && (r.client.submitted ==> (r.client.errorCode.Some? <==> r.client.cancelled))
            && (r.client.submitted && r.phase.Over? && r.client.final.None? ==> r.client.cancelled)
  {
    PhasesReachable(cfg, acts);
  }

  // ---- Probing --------------------------------------------------------------------------------------

  /** The probe decides: a service that is not ready ends the run before anything is submitted, and so does an
      earlier cancellation or a request that is too large; otherwise the agent task is submitted. Nothing else but a
      cancellation happens while probing. */
  lemma ProbeDecides(cfg: Config, acts: seq<Act>, ok: bool, bodyFits: bool)
    requires Exec(cfg, acts).phase.Probing?
    ensures var r, t := Exec(cfg, acts), Next(cfg, Exec(cfg, acts), Capability(ok, bodyFits));
            if ok && !r.client.cancelled && bodyFits then
              t == r.(phase := Posting, client := r.client.(submitted := true))
            else
              && t.phase.Over? && t.client.settled && t.aborted && !t.client.submitted && t.client.cancelPosts == 0
              && t.client.cancelled == r.client.cancelled && t.client.final.None?
              && t.client.errorCode == if r.client.errorCode.Some? then r.client.errorCode
                                       else Some(if !ok then TaskUnavailable else ResultSizeLimit)
    ensures forall act: Act :: !act.Capability? && !act.Abort? ==>
      Next(cfg, Exec(cfg, acts), act) == Exec(cfg, acts)
  {
    PhasesReachable(cfg, acts);
    Reachable(cfg, acts);
    hide Exec, Frames, Deltas, Consumed, EndsAtFinal;
  }

  // ---- Submitted runs -------------------------------------------------------------------------------

  /** The run has ended with a failure: the first error code stays, a run that was not cancelled yet is, with its
      one cancel request, and what was received, delivered and counted stays. */
  ghost predicate Failed(r: Run, t: Run, code: ErrorCode) {
    && t.phase.Over? && t.aborted && t.received == r.received
    && t.client == r.client.(settled := true, cancelled := true, cancelPosts := 1,
         errorCode := if r.client.errorCode.Some? then r.client.errorCode else Some(code))
  }

  lemma CaughtFails(r: Run, code: ErrorCode)
    requires !r.phase.Over? && PhaseOk(r) && !r.client.settled && r.client.submitted
    ensures Failed(r, Caught(r, code), code)
  {}

  /** The answer to the submission: an event stream is read, 503 means that the service is unavailable, every
      other refusal that the agent failed, and an answer that is no stream is incomplete. While it is awaited no
      bytes and no end of a stream come. */
  lemma AnswerDecides(cfg: Config, acts: seq<Act>, answer: Answer)
    requires Exec(cfg, acts).phase.Posting?
    ensures var r, t := Exec(cfg, acts), Next(cfg, Exec(cfg, acts), Response(answer));
            match answer
            case Accepting => t == r.(phase := Reading)
            case Unavailable => Failed(r, t, TaskUnavailable)
            case OtherStatus => Failed(r, t, AgentFailed)
            case NotAStream => Failed(r, t, UpstreamIncomplete)
    ensures forall act: Act :: act.Capability? || act.Chunk? || act.StreamEnds? ==>
      Next(cfg, Exec(cfg, acts), act) == Exec(cfg, acts)
  {
    PhasesReachable(cfg, acts);
    Reachable(cfg, acts);
    var r := Exec(cfg, acts);
    CaughtFails(r, TaskUnavailable);
    CaughtFails(r, AgentFailed);
    CaughtFails(r, UpstreamIncomplete);
    hide Exec, Frames, Deltas, Consumed, EndsAtFinal, Caught, Failed, PhaseOk;
  }

  /** A broken connection fails a submitted run; so does an aborted transport, once it is observed, and a stream
      that ends without a final frame. */
  lemma TransportFails(cfg: Config, acts: seq<Act>)
    requires var r := Exec(cfg, acts); r.phase.Posting? || r.phase.Reading?
    ensures var r := Exec(cfg, acts);
            && Failed(r, Next(cfg, r, NetworkError), AgentFailed)
            && (r.aborted ==> Failed(r, Next(cfg, r, AbortObserved), AgentFailed))
            && (!r.aborted ==> Next(cfg, r, AbortObserved) == r)
            && (r.phase.Reading? ==> Failed(r, Next(cfg, r, StreamEnds), UpstreamIncomplete))
            && Next(cfg, r, CancelRefused) == (if r.client.cancelled then r.(aborted := true) else r)
  {
    PhasesReachable(cfg, acts);
    Reachable(cfg, acts);
    var r := Exec(cfg, acts);
    CaughtFails(r, AgentFailed);
    CaughtFails(r, UpstreamIncomplete);
    hide Exec, Frames, Deltas, Consumed, EndsAtFinal, Caught, Failed;
  }

  /** A chunk is consumed up to the final frame or the first error. A final frame ends the run as it is, an error
      fails it, and otherwise reading goes on. */
  lemma ChunkDecides(cfg: Config, acts: seq<Act>, bytes: seq<Byte>)
    requires Exec(cfg, acts).phase.Reading?
    ensures var r, t := Exec(cfg, acts), Next(cfg, Exec(cfg, acts), Chunk(bytes));
            var (c, code) := ConsumeAll(cfg, r.client, Frames(r.framing, bytes));
            && t.received == r.received + bytes
            && (if code.Some? then Failed(r.(client := c, received := t.received), t, code.value)
                else if c.final.Some? then t.phase.Over? && t.aborted && t.client == c.(settled := true)
                else t.phase.Reading? && t.client == c && t.aborted == r.aborted)
    ensures forall act: Act :: act.Capability? || act.Response? ==> Next(cfg, Exec(cfg, acts), act) == Exec(cfg, acts)
  {
    PhasesReachable(cfg, acts);
    Reachable(cfg, acts);
    var r := Exec(cfg, acts);
    ReceiveConsumesFrames(cfg, r.client, r.framing, bytes);
    ReceiveRequests(cfg, r.client, r.framing, bytes);
    hide Exec, Frames, Deltas, Consumed, EndsAtFinal, Receive, ConsumeAll;
  }

  /** A cancellation from outside latches with its code; before the submission it aborts the transport at once,
      and afterwards it sends the cancel request and leaves the stream open. A second one does nothing. */
  lemma AbortLatches(cfg: Config, acts: seq<Act>, timeout: bool)
    requires !Exec(cfg, acts).phase.Over?
    ensures var r, t := Exec(cfg, acts), Next(cfg, Exec(cfg, acts), Abort(timeout));
            if r.client.cancelled then t.client == r.client
            else
              t.client == r.client.(cancelled := true, cancelPosts := if r.client.submitted then 1 else 0,
                errorCode := if r.client.errorCode.Some? then r.client.errorCode
                             else Some(if timeout then TurnTimeout else AgentFailed))
    ensures var r, t := Exec(cfg, acts), Next(cfg, Exec(cfg, acts), Abort(timeout));
            t == r.(client := t.client, aborted := r.aborted || !r.client.submitted)
  {
    PhasesReachable(cfg, acts);
    Reachable(cfg, acts);
    hide Exec, Frames, Deltas, Consumed, EndsAtFinal;
  }

  /** An undisturbed run: ready, submitted, accepted, and answered by bytes whose frames end with a final one and
      whose callbacks do not object. It returns the final frame without an error, uncancelled and without a
      cancel request. */
  lemma UndisturbedRunSucceeds(cfg: Config, bytes: seq<Byte>)
    requires var (c, code) := ConsumeAll(cfg, FRESH_CLIENT.(submitted := true), Frames(FRESH_FRAMING, bytes));
      code.None? && c.final.Some? && !c.cancelled
    ensures var t := Exec(cfg, [Capability(true, true), Response(Accepting), Chunk(bytes)]);
            var c := ConsumeAll(cfg, FRESH_CLIENT.(submitted := true), Frames(FRESH_FRAMING, bytes)).0;
            && t.phase.Over? && t.client == c.(settled := true) && t.client.final.Some?
            && t.client.errorCode.None? && t.client.cancelPosts == 0 && t.received == bytes
  {
    var acts := [Capability(true, true), Response(Accepting), Chunk(bytes)];
    ThreeActs(cfg, acts[0], acts[1], acts[2]);
    ChunkDecides(cfg, acts[..2], bytes);
    CancelRequestIff(cfg, acts);
    assert acts[..2] == [acts[0], acts[1]];
    SubmittedRun(cfg);
    RunsOnlyProgress(cfg, acts[..2], acts);
    hide Exec, Next, Frames, ConsumeAll;
    assert [] + bytes == bytes;
  }

  lemma SubmittedRun(cfg: Config)
    ensures Next(cfg, Next(cfg, START, Capability(true, true)), Response(Accepting)) ==
            Run(FRESH_CLIENT.(submitted := true), FRESH_FRAMING, Reading, false, [])
  {}

  lemma ThreeActs(cfg: Config, a: Act, b: Act, d: Act)
    ensures Exec(cfg, [a, b]) == Next(cfg, Next(cfg, START, a), b)
    ensures Exec(cfg, [a, b, d]) == Next(cfg, Exec(cfg, [a, b]), d)
  {
    hide Next;
    assert [a, b, d][..2] == [a, b] && [a, b][..1] == [a] && [a][..0] == [];
    assert Exec(cfg, [a]) == Next(cfg, START, a);
  }
}
