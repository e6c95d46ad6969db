/** The bound on delivered text: whatever frames arrive and however the run ends, `onContent` is handed at
    most 64,000 units in all. */
module TaskBounds {
  import opened Optional
  import opened TaskFraming
  import opened TaskProtocol
  import opened TaskRun

  /** What was delivered is within the characters counted so far and within the limit. */
  ghost predicate Bounded(c: Client) {
    TotalLength(c.delivered) <= c.answerCharacters && TotalLength(c.delivered) <= MAX_ANSWER_CHARACTERS
  }

  /** Delivers nothing and uncounts nothing. */
  ghost predicate Passive(c: Client, c': Client) {
    c'.delivered == c.delivered && c.answerCharacters <= c'.answerCharacters
  }

  lemma CancelIsPassive(c: Client, code: ErrorCode)
    ensures Passive(c, Cancel(c, code))
  {}

  lemma AcceptedIsPassive(cfg: Config, c: Client, v: Fields)
    ensures Passive(c, AcceptedFrame(cfg, c, v).client)
  {}

  lemma UsageIsPassive(cfg: Config, c: Client, v: Fields)
    ensures Passive(c, UsageFrame(cfg, c, v).client)
  {
    hide ReadUsage, KeysWithin;
  }

  lemma ActivityIsPassive(cfg: Config, c: Client, v: Fields)
    ensures Passive(c, ActivityFrame(cfg, c, v).client) && Passive(c, DelegationFrame(cfg, c, v).client)
  {
    hide ActivityFieldsOk, KeysWithin, IsOneOf;
  }

  lemma FinalIsPassive(cfg: Config, c: Client, v: Fields)
    ensures Passive(c, FinalFrame(cfg, c, v).client)
  {
    hide ReadUsage, FinalProblem, KeysWithin, IsOneOf, Is, HasInk;
  }

  lemma OneMoreText(texts: seq<Text>, text: Text)
    ensures TotalLength(texts + [text]) == TotalLength(texts) + |text|
  {
    assert (texts + [text])[..|texts|] == texts;
  }

  lemma ContentIsBounded(cfg: Config, c: Client, v: Fields)
    requires Bounded(c)
    ensures Bounded(ContentFrame(cfg, c, v).client)
  {
    hide KeysWithin, HasInk, TotalLength;
    if Get(v, "text").Some? && v["text"].Str? { OneMoreText(c.delivered, v["text"].s); }
  }

  lemma BodyIsBounded(cfg: Config, c: Client, v: Fields)
    requires Bounded(c)
    ensures Bounded(Body(cfg, c, v).client)
  {
    hide AcceptedFrame, UsageFrame, ContentFrame, ActivityFrame, DelegationFrame, FinalFrame, TotalLength, Is;
    AcceptedIsPassive(cfg, c, v);
    UsageIsPassive(cfg, c, v);
    ActivityIsPassive(cfg, c, v);
    FinalIsPassive(cfg, c, v);
    ContentIsBounded(cfg, c, v);
  }

  lemma ConsumeIsBounded(cfg: Config, c: Client, data: seq<Byte>)
    requires Bounded(c)
    ensures Bounded(Consume(cfg, c, data).client)
  {
    hide Body, Metadata, TotalLength;
    var value := cfg.parse(data);
    if value.Some? && value.value.Obj? { BodyIsBounded(cfg, c, value.value.fields); }
  }

  lemma {:induction false} ReceiveIsBounded(cfg: Config, c: Client, f: Framing, bytes: seq<Byte>)
    requires Bounded(c)
    ensures Bounded(Receive(cfg, c, f, bytes).client)
    decreases |bytes|
  {
    hide Consume, PushByte, Bounded;
    if bytes != [] && c.final.None? {
      match PushByte(f, bytes[0]) {
        case Fail(_) =>
        case Quiet(g) => ReceiveIsBounded(cfg, c, g, bytes[1..]);
        case Frame(g, payload) =>
          ConsumeIsBounded(cfg, c, payload);
          if Consume(cfg, c, payload).Done? { ReceiveIsBounded(cfg, Consume(cfg, c, payload).client, g, bytes[1..]); }
      }
    }
  }

  lemma EndingIsPassive(r: Run, code: ErrorCode)
    ensures Passive(r.client, Settle(r).client) && Passive(r.client, CancelRun(r, code).client)
      && Passive(r.client, Caught(r, code).client)
  {
    hide Cancel;
    CancelIsPassive(r.client, code);
    CancelIsPassive(r.client.(errorCode := if r.client.errorCode.Some? then r.client.errorCode
      else Some(code)), AgentFailed);
  }

  lemma ChunkIsBounded(cfg: Config, r: Run, bytes: seq<Byte>)
    requires Bounded(r.client)
    ensures Bounded(ReceiveChunk(cfg, r, bytes).client)
  {
    hide Receive, TotalLength, Settle, Caught;
    ReceiveIsBounded(cfg, r.client, r.framing, bytes);
    match Receive(cfg, r.client, r.framing, bytes)
    case Stopped(c, code) => EndingIsPassive(r.(client := c, received := r.received + bytes), code);
    case Going(c, f) => EndingIsPassive(r.(client := c, framing := f, received := r.received + bytes), AgentFailed);
  }

  lemma CapabilityIsPassive(cfg: Config, r: Run, ok: bool, bodyFits: bool)
    ensures Passive(r.client, Next(cfg, r, Capability(ok, bodyFits)).client)
  {
    hide Settle, Caught;
    EndingIsPassive(r, ResultSizeLimit);
    EndingIsPassive(r.(client := r.client.(errorCode := if r.client.errorCode.Some? then r.client.errorCode
      else Some(TaskUnavailable))), AgentFailed);
  }

  lemma QuietActIsPassive(cfg: Config, r: Run, act: Act)
    requires !act.Chunk? && !act.Capability?
    ensures Passive(r.client, Next(cfg, r, act).client)
  {
    hide Settle, Caught, CancelRun, Passive;
    NoChangeIsPassive(r.client);
    forall code: ErrorCode
      ensures Passive(r.client, CancelRun(r, code).client) && Passive(r.client, Caught(r, code).client)
    {
      EndingIsPassive(r, code);
    }
  }

  lemma NoChangeIsPassive(c: Client)
    ensures Passive(c, c)
  {}

  lemma NextIsBounded(cfg: Config, r: Run, act: Act)
    requires Bounded(r.client)
    ensures Bounded(Next(cfg, r, act).client)
  {
    hide ReceiveChunk, TotalLength, Caught, CancelRun, Settle;
    if act.Chunk? {
      ChunkIsBounded(cfg, r, act.bytes);
    } else if act.Capability? {
      CapabilityIsPassive(cfg, r, act.ok, act.bodyFits);
    } else {
      QuietActIsPassive(cfg, r, act);
    }
  }

  /** At every moment of every run, however it ends, at most 64,000 units were handed to onContent. */
  lemma {:induction false} DeliveredIsBounded(cfg: Config, acts: seq<Act>)
    ensures Bounded(Exec(cfg, acts).client) && TotalLength(Exec(cfg, acts).client.delivered) <= 64000
  {
    if acts != [] {
      DeliveredIsBounded(cfg, acts[..|acts| - 1]);
      NextIsBounded(cfg, Exec(cfg, acts[..|acts| - 1]), acts[|acts| - 1]);
    }
  }
}
