/** A cancelled run beside the same run without the cancellation: reading the same bytes, both take the same
    usage and end alike, and the cancelled one delivers nothing more. */
module TaskTwin {
  import opened TaskFraming
  import opened TaskProtocol
  import opened TaskRun

  /** d is a cancelled client that agrees with c in everything but the cancellation and the deliveries. */
  ghost predicate Twins(c: Client, d: Client) {
    && d.cancelled && d.accepted == c.accepted && d.usage == c.usage && d.observationComplete == c.observationComplete
    && d.final == c.final && d.lastSeq == c.lastSeq && d.lastData == c.lastData
    && d.answerCharacters == c.answerCharacters && d.streamedNonempty == c.streamedNonempty
    && d.checkpoints == c.checkpoints
    && d.submitted == c.submitted && d.settled == c.settled
  }

  /** Nothing was delivered or sent, and the error code is the first one. */
  ghost predicate Mute(d: Client, d': Client) {
    && d'.delivered == d.delivered && d'.activities == d.activities && d'.delegationErrors == d.delegationErrors
    && d'.errorCode == d.errorCode && d'.cancelPosts == d.cancelPosts
  }

  /** Both frames were taken, or both were refused with the same code. */
  ghost predicate Alike(d: Client, r: Outcome, q: Outcome) {
    && Twins(r.client, q.client) && Mute(d, q.client)
    && (r.Done? <==> q.Done?) && (r.Throws? ==> q.code == r.code)
  }

  lemma AcceptedAlike(cfg: Config, c: Client, d: Client, v: Fields)
    requires Twins(c, d)
    ensures Alike(d, AcceptedFrame(cfg, c, v), AcceptedFrame(cfg, d, v))
  {
    hide KeysWithin, IsCount;
  }

  lemma CancelAlike(c: Client, d: Client, code: ErrorCode)
    requires Twins(c, d)
    ensures Twins(Cancel(c, code), d) && Cancel(d, code) == d
  {
  }

  lemma ReportAlike(cfg: Config, c: Client, d: Client)
    requires Twins(c, d)
    ensures Twins(ReportUsage(cfg, c), ReportUsage(cfg, d)) && Mute(d, ReportUsage(cfg, d))
  {
    hide Cancel;
    var n := c.checkpoints + 1;
    CancelAlike(c.(checkpoints := n), d.(checkpoints := n), BudgetExhausted);
    CancelAlike(c.(checkpoints := n), d.(checkpoints := n), AgentFailed);
  }

  lemma DeliverAlike(cfg: Config, c: Client, d: Client, text: Text)
    requires Twins(c, d)
    ensures Twins(DeliverContent(cfg, c, text), DeliverContent(cfg, d, text)) && DeliverContent(cfg, d, text) == d
  {
  }

  lemma UsageAlike(cfg: Config, c: Client, d: Client, v: Fields)
    requires Twins(c, d)
    ensures Alike(d, UsageFrame(cfg, c, v), UsageFrame(cfg, d, v))
  {
    hide KeysWithin, ReadUsage, ReportUsage;
    var usage := ReadUsage(v, c.usage);
    if usage.Some? { ReportAlike(cfg, c.(usage := usage.value), d.(usage := usage.value)); }
  }

  lemma ContentAlike(cfg: Config, c: Client, d: Client, v: Fields)
    requires Twins(c, d)
    ensures Alike(d, ContentFrame(cfg, c, v), ContentFrame(cfg, d, v))
  {
    hide KeysWithin, HasInk, DeliverContent;
    if IsText(Get(v, "text"), MAX_ANSWER_CHARACTERS) {
      var text := v["text"].s;
      var n, inked := c.answerCharacters + |text|, c.streamedNonempty || HasInk(text);
      DeliverAlike(cfg, c.(answerCharacters := n, streamedNonempty := inked),
        d.(answerCharacters := n, streamedNonempty := inked), text);
    }
  }

  lemma ActivityAlike(cfg: Config, c: Client, d: Client, v: Fields)
    requires Twins(c, d)
    ensures Alike(d, ActivityFrame(cfg, c, v), ActivityFrame(cfg, d, v))
  {
    hide ActivityFieldsOk;
  }

  lemma DelegationAlike(cfg: Config, c: Client, d: Client, v: Fields)
    requires Twins(c, d)
    ensures Alike(d, DelegationFrame(cfg, c, v), DelegationFrame(cfg, d, v))
  {
    hide KeysWithin, IsOneOf;
  }

  lemma AnswerAlike(c: Client, d: Client, v: Fields)
    requires Twins(c, d)
    ensures Alike(d, FinalAnswer(c, v), FinalAnswer(d, v))
  {
    hide KeysWithin, IsOneOf, Is, HasInk;
  }

  lemma FinalAlike(cfg: Config, c: Client, d: Client, v: Fields)
    requires Twins(c, d)
    ensures Alike(d, FinalFrame(cfg, c, v), FinalFrame(cfg, d, v))
  {
    hide FinalAnswer, FinalProblem, ReadUsage;
    AnswerAlike(c, d, v);
  }

  lemma BodyAlike(cfg: Config, c: Client, d: Client, v: Fields)
    requires Twins(c, d)
    ensures Alike(d, Body(cfg, c, v), Body(cfg, d, v))
  {
    hide AcceptedFrame, UsageFrame, ContentFrame, ActivityFrame, DelegationFrame, FinalFrame, Is;
    AcceptedAlike(cfg, c, d, v);
    UsageAlike(cfg, c, d, v);
    ContentAlike(cfg, c, d, v);
    ActivityAlike(cfg, c, d, v);
    DelegationAlike(cfg, c, d, v);
    FinalAlike(cfg, c, d, v);
  }

  /** Twins take or refuse every frame alike. */
  lemma ConsumeAlike(cfg: Config, c: Client, d: Client, data: seq<Byte>)
    requires Twins(c, d)
    ensures Alike(d, Consume(cfg, c, data), Consume(cfg, d, data))
  {
    hide Body, Metadata, Is, IsCount;
    var value := cfg.parse(data);
    if value.Some? && value.value.Obj? { BodyAlike(cfg, c, d, value.value.fields); }
  }

  /** Both go on from the same framing, or both stopped with the same code. */
  ghost predicate ReadAlike(d: Client, p: Progress, q: Progress) {
    && Twins(p.client, q.client) && Mute(d, q.client)
    && (p.Going? <==> q.Going?) && (p.Going? ==> q.framing == p.framing) && (p.Stopped? ==> q.code == p.code)
  }

  lemma {:induction false} ReceiveAlike(cfg: Config, c: Client, d: Client, f: Framing, bytes: seq<Byte>)
    requires Twins(c, d)
    ensures ReadAlike(d, Receive(cfg, c, f, bytes), Receive(cfg, d, f, bytes))
    decreases |bytes|
  {
    hide Consume, PushByte;
    if bytes != [] && c.final.None? {
      match PushByte(f, bytes[0])
      case Fail(_) =>
      case Quiet(g) => ReceiveAlike(cfg, c, d, g, bytes[1..]);
      case Frame(g, payload) =>
        ConsumeAlike(cfg, c, d, payload);
        var r, q := Consume(cfg, c, payload), Consume(cfg, d, payload);
        if r.Done? { ReceiveAlike(cfg, r.client, q.client, g, bytes[1..]); }
    }
  }

  // ---- Runs ---------------------------------------------------------------------------------------

  ghost predicate TwinRuns(r: Run, q: Run) { Twins(r.client, q.client) && q.framing == r.framing && q.phase == r.phase }

  lemma SettleAlike(r: Run, q: Run)
    requires TwinRuns(r, q)
    ensures TwinRuns(Settle(r), Settle(q)) && Settle(q).client.delivered == q.client.delivered
  {
  }

  lemma CaughtAlike(r: Run, q: Run, code: ErrorCode)
    requires TwinRuns(r, q)
    ensures TwinRuns(Caught(r, code), Caught(q, code)) && Caught(q, code).client.delivered == q.client.delivered
  {
  }

  lemma ChunkAlike(cfg: Config, r: Run, q: Run, bytes: seq<Byte>)
    requires TwinRuns(r, q)
    ensures TwinRuns(Next(cfg, r, Chunk(bytes)), Next(cfg, q, Chunk(bytes)))
    ensures Next(cfg, q, Chunk(bytes)).client.delivered == q.client.delivered
  {
    hide Receive, Settle, Caught;
    if r.phase.Reading? {
      ReceiveAlike(cfg, r.client, q.client, r.framing, bytes);
      match Receive(cfg, r.client, r.framing, bytes)
      case Stopped(c, code) =>
        var d := Receive(cfg, q.client, q.framing, bytes).client;
        CaughtAlike(r.(client := c, received := r.received + bytes), q.(client := d, received := q.received + bytes),
          code);
      case Going(c, f) =>
        var d := Receive(cfg, q.client, q.framing, bytes).client;
        SettleAlike(r.(client := c, framing := f, received := r.received + bytes),
          q.(client := d, framing := f, received := q.received + bytes));
    }
  }

  function ReadChunks(cfg: Config, r: Run, chunks: seq<seq<Byte>>): Run {
    if chunks == [] then r else Next(cfg, ReadChunks(cfg, r, chunks[..|chunks| - 1]), Chunk(chunks[|chunks| - 1]))
  }

  lemma {:induction false} ChunksAlike(cfg: Config, r: Run, q: Run, chunks: seq<seq<Byte>>)
    requires TwinRuns(r, q)
    ensures TwinRuns(ReadChunks(cfg, r, chunks), ReadChunks(cfg, q, chunks))
    ensures ReadChunks(cfg, q, chunks).client.delivered == q.client.delivered
    decreases |chunks|
  {
    hide Next, TwinRuns;
    if chunks != [] {
      var before := chunks[..|chunks| - 1];
      ChunksAlike(cfg, r, q, before);
      ChunkAlike(cfg, ReadChunks(cfg, r, before), ReadChunks(cfg, q, before), chunks[|chunks| - 1]);
    }
  }

  /** Cancelling a submitted run while it is reading changes nothing about what it takes from the stream:
      whatever bytes follow, the cancelled run ends with the usage, the final frame, the frame position and
      the characters of the run that was not cancelled, in the same phase, and delivers nothing more. */
  lemma CancelledRunAbsorbsUsage(cfg: Config, acts: seq<Act>, timeout: bool, chunks: seq<seq<Byte>>)
    requires Exec(cfg, acts).phase.Reading?
    ensures
      var r := Exec(cfg, acts);
      var free, cancelled := ReadChunks(cfg, r, chunks), ReadChunks(cfg, Next(cfg, r, Abort(timeout)), chunks);
      && cancelled.client.cancelled && cancelled.phase == free.phase
      && cancelled.client.usage == free.client.usage && cancelled.client.final == free.client.final
      && cancelled.client.observationComplete == free.client.observationComplete
      && cancelled.client.lastSeq == free.client.lastSeq && cancelled.client.lastData == free.client.lastData
      && cancelled.client.answerCharacters == free.client.answerCharacters
      && cancelled.client.delivered == r.client.delivered
  {
    Reachable(cfg, acts);
    var r := Exec(cfg, acts);
    hide Exec, ReadChunks;
    AbortMakesTwin(cfg, r, timeout);
    ChunksAlike(cfg, r, Next(cfg, r, Abort(timeout)), chunks);
  }

  lemma AbortMakesTwin(cfg: Config, r: Run, timeout: bool)
    requires r.phase.Reading? && !r.client.settled
    ensures TwinRuns(r, Next(cfg, r, Abort(timeout)))
      && Next(cfg, r, Abort(timeout)).client.delivered == r.client.delivered
  {
  }
}
