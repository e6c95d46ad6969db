/** The client object of one run, updated in place as the source does: `consume`, `cancel`, `deliver` and
    the byte loop. Each method is proved to make the step that TaskProtocol and TaskRun specify. */
module TaskClient {
  import opened Optional
  import opened TaskFraming
  import opened TaskProtocol
  import opened TaskRun

  /** An answer in full, with visible text within the limit, that does not pass a fallback off as verbatim. */
  predicate GoodBuffered(c: Client, answer: Fields, verbatim: bool) {
    && Is(Get(answer, "delivery"), "buffered")
    && "text" in answer && answer["text"].Str? && HasInk(answer["text"].s)
    && c.answerCharacters + |answer["text"].s| <= MAX_ANSWER_CHARACTERS
    && !(Is(Get(answer, "kind"), "safe_fallback") && verbatim)
  }

  /** An answer that was already streamed: model text, of which some was visible. */
  predicate GoodStreamed(c: Client, answer: Fields) {
    Is(Get(answer, "delivery"), "streamed") && "text" !in answer && c.streamedNonempty
      && Is(Get(answer, "kind"), "model_text")
  }

  /** An answering outcome has a buffered or a streamed answer of a known kind; any other has none and claims
      nothing verbatim. */
  predicate GoodAnswer(c: Client, v: Fields) {
    var verbatim := Get(v, "answerIsProviderVerbatim") == Some(Bool(true));
    if IsOneOf(Get(v, "outcome"), ["success", "partial", "clarification"]) then
      && "answer" in v && v["answer"].Obj?
      && var answer := v["answer"].fields;
      && KeysWithin(answer, {"kind", "delivery", "text"})
      && IsOneOf(Get(answer, "kind"), ["model_text", "meeting_prose", "safe_fallback"])
      && (GoodBuffered(c, answer, verbatim) || GoodStreamed(c, answer))
    else "answer" !in v && !verbatim
  }

  lemma BufferedIsNotStreamed(value: Option<Json>)
    ensures !(Is(value, "buffered") && Is(value, "streamed"))
  {
    assert "buffered"[0] == 'b' && "streamed"[0] == 's';
  }

  class AgentTaskRun {
    const cfg: Config
    const reader: FrameReader

    var accepted: bool
    var cancelled: bool
    var usage: Usage
    var observationComplete: bool
    var final: Option<Fields>
    var errorCode: Option<ErrorCode>
    var submitted: bool
    var settled: bool
    var lastSeq: int
    var lastData: seq<Byte>
    var answerCharacters: nat
    var streamedNonempty: bool
    // What the callbacks and the cancel endpoint have received.
    var delivered: seq<Text>
    var activities: nat
    var delegationErrors: nat
    var checkpoints: nat
    var cancelPosts: nat

    ghost function Model(): Client reads this {
      Client(accepted, cancelled, usage, observationComplete, final, errorCode, submitted, settled, lastSeq, lastData,
             answerCharacters, streamedNonempty, delivered, activities, delegationErrors, checkpoints, cancelPosts)
    }

    constructor (cfg: Config)
      ensures this.cfg == cfg && Model() == FRESH_CLIENT
      ensures fresh(reader) && fresh(reader.lineBuffer) && reader.Valid() && reader.Contents() == FRESH_FRAMING
    {
      this.cfg := cfg;
      reader := new FrameReader();
      accepted, cancelled, usage, observationComplete, final, errorCode := false, false, NO_USAGE, false, None, None;
      submitted, settled, lastSeq, lastData, answerCharacters, streamedNonempty := false, false, -1, [], 0, false;
      delivered, activities, delegationErrors, checkpoints, cancelPosts := [], 0, 0, 0, 0;
    }

    /** The cancellation latches and the first error code stays; a cancel request is sent once, by the call
        that cancels a submitted run, and everything received or delivered so far is kept. */
    method CancelWith(code: ErrorCode)
      modifies this
      ensures Model() == Cancel(old(Model()), code)
      ensures cancelled <==> old(cancelled) || !old(settled)
      ensures errorCode == if old(errorCode).Some? || old(cancelled || settled) then old(errorCode) else Some(code)
      ensures cancelPosts == old(cancelPosts) + if cancelled && !old(cancelled) && submitted then 1 else 0
      ensures Sound(old(Model())) ==> Sound(Model()) && Progresses(old(Model()), Model()) && delivered == old(delivered)
    {
      ghost var before := Model();
      if Sound(before) { CancelIsSound(before, code); }
      hide Sound, Progresses;
      if settled || cancelled { return; }
      cancelled := true;
      if errorCode.None? { errorCode := Some(code); }
      if submitted { cancelPosts := cancelPosts + 1; }
    }

    method Settled(reply: Reply, optional: bool)
      modifies this
      ensures Model() == AfterReply(old(Model()), reply, optional)
    {
      if reply == Threw || (reply == RefusedIt && !optional) { CancelWith(AgentFailed); }
    }

    method ConsumeAccepted(v: Fields) returns (thrown: Option<ErrorCode>)
      modifies this
      ensures match AcceptedFrame(cfg, old(Model()), v)
              case Done(c) => thrown.None? && Model() == c
              case Throws(c, code) => thrown == Some(code) && Model() == c
    {
      if !KeysWithin(v, ENVELOPE + {"version", "model", "deadlineAt"}) { return Some(UpstreamIncomplete); }
      if accepted || Get(v, "version") != Some(Int(1)) || !IsCount(Get(v, "deadlineAt")) {
        return Some(UpstreamIncomplete);
      }
      if v["deadlineAt"].n == 0 || v["deadlineAt"].n > cfg.deadlineAt { return Some(UpstreamIncomplete); }
      if Get(v, "model") != Some(Str(cfg.model)) { return Some(RoutingMismatch); }
      accepted := true;
      return None;
    }

    /** The usage callback is called exactly once if there is one, also for a cancelled run, and may cancel
        the run; it delivers nothing, and of the usage, the final frame and the frame position nothing changes. */
    method Report()
      modifies this
      ensures Model() == ReportUsage(cfg, old(Model()))
      ensures checkpoints == old(checkpoints) + if cfg.onUsage.Some? then 1 else 0
      ensures delivered == old(delivered) && usage == old(usage) && final == old(final) && lastSeq == old(lastSeq)
      ensures cancelled <==>
        old(cancelled) || (cfg.onUsage.Some? && !old(settled) && !cfg.onUsage.value(old(checkpoints)).Carry?)
      ensures old(cancelled) ==> cancelPosts == old(cancelPosts) && errorCode == old(errorCode)
    {
      if cfg.onUsage.Some? {
        var reply := cfg.onUsage.value(checkpoints);
        checkpoints := checkpoints + 1;
        if reply == OverBudget { CancelWith(BudgetExhausted); } else if reply == UsageThrew { CancelWith(AgentFailed); }
      }
    }

    method ConsumeUsage(v: Fields) returns (thrown: Option<ErrorCode>)
      modifies this
      ensures match UsageFrame(cfg, old(Model()), v)
              case Done(c) => thrown.None? && Model() == c
              case Throws(c, code) => thrown == Some(code) && Model() == c
    {
      hide ReadUsage, KeysWithin, ReportUsage;
      if !KeysWithin(v, ENVELOPE + USAGE_FIELDS) { return Some(UpstreamIncomplete); }
      var next := ReadUsage(v, usage);
      if next.None? { return Some(UpstreamIncomplete); }
      usage := next.value;
      Report();
      return None;
    }

    /** `deliver` with the content callback: a cancelled run delivers nothing and stays as it is; otherwise the
        text is handed over once, after all earlier ones, and a refusal or a throw cancels the run. */
    method Deliver(text: Text)
      modifies this
      ensures Model() == DeliverContent(cfg, old(Model()), text)
      ensures old(cancelled) ==> Model() == old(Model())
      ensures delivered == if cfg.onContent.Some? && !old(cancelled) then old(delivered) + [text] else old(delivered)
      ensures cfg.onContent.Some? && !old(cancelled) && !old(settled) ==>
        (cancelled <==> cfg.onContent.value(old(|delivered|)) != Taken)
      ensures answerCharacters == old(answerCharacters) && usage == old(usage)
    {
      if cfg.onContent.Some? && !cancelled {
        var reply := cfg.onContent.value(|delivered|);
        delivered := delivered + [text];
        Settled(reply, false);
      }
    }

    method ConsumeContent(v: Fields) returns (thrown: Option<ErrorCode>)
      modifies this
      ensures match ContentFrame(cfg, old(Model()), v)
              case Done(c) => thrown.None? && Model() == c
              case Throws(c, code) => thrown == Some(code) && Model() == c
    {
      hide HasInk, KeysWithin, DeliverContent;
      if !KeysWithin(v, ENVELOPE + {"text"}) { return Some(UpstreamIncomplete); }
      if !IsText(Get(v, "text"), MAX_ANSWER_CHARACTERS) {
        var oversized := "text" in v && v["text"].Str? && |v["text"].s| > MAX_ANSWER_CHARACTERS;
        return Some(if oversized then ResultSizeLimit else UpstreamIncomplete);
      }
      var text := v["text"].s;
      answerCharacters := answerCharacters + |text|;
      if answerCharacters > MAX_ANSWER_CHARACTERS { return Some(ResultSizeLimit); }
      streamedNonempty := streamedNonempty || HasInk(text);
      Deliver(text);
      return None;
    }

    method ConsumeActivity(v: Fields) returns (thrown: Option<ErrorCode>)
      modifies this
      ensures match ActivityFrame(cfg, old(Model()), v)
              case Done(c) => thrown.None? && Model() == c
              case Throws(c, code) => thrown == Some(code) && Model() == c
    {
      hide ActivityFieldsOk;
      if !ActivityFieldsOk(cfg, v) { return Some(UpstreamIncomplete); }
      if cfg.onActivity.Some? && !cancelled {
        var reply := cfg.onActivity.value(activities);
        activities := activities + 1;
        Settled(reply, true);
      }
      return None;
    }

    method ConsumeDelegationError(v: Fields) returns (thrown: Option<ErrorCode>)
      modifies this
      ensures match DelegationFrame(cfg, old(Model()), v)
              case Done(c) => thrown.None? && Model() == c
              case Throws(c, code) => thrown == Some(code) && Model() == c
    {
      hide IsOneOf, KeysWithin;
      if !KeysWithin(v, ENVELOPE + {"code"}) || !IsOneOf(Get(v, "code"), DELEGATION_CODES) {
        return Some(UpstreamIncomplete);
      }
      if cfg.onDelegationError.Some? && !cancelled {
        var reply := cfg.onDelegationError.value(delegationErrors);
        delegationErrors := delegationErrors + 1;
        Settled(reply, false);
      }
      return None;
    }

    method ConsumeFinal(v: Fields) returns (thrown: Option<ErrorCode>)
      modifies this
      ensures match FinalFrame(cfg, old(Model()), v)
              case Done(c) => thrown.None? && Model() == c
              case Throws(c, code) => thrown == Some(code) && Model() == c
    {
      hide FinalProblem, FinalAnswer, ReadUsage;
      FinalAnswerEffect(Model(), v);
      thrown := FinalProblem(cfg, v);
      if thrown.None? {
        thrown := CheckAnswer(v);
        if thrown.None? {
          var next := ReadUsage(v, usage);
          if next.None? {
            thrown := Some(UpstreamIncomplete);
          } else {
            final := Some(v);
            observationComplete := next.value.complete;
            usage := next.value;
          }
        }
      }
    }

    /** The answer of a final frame is taken exactly when it is a good one; then the characters stay within
        the limit. Whatever is refused, no counted character is uncounted. */
    method CheckAnswer(v: Fields) returns (thrown: Option<ErrorCode>)
      modifies this`answerCharacters
      ensures thrown.None? <==> GoodAnswer(old(Model()), v)
      ensures old(answerCharacters) <= answerCharacters
      ensures thrown.None? && old(answerCharacters) <= MAX_ANSWER_CHARACTERS ==>
        answerCharacters <= MAX_ANSWER_CHARACTERS
      ensures thrown == Some(ResultSizeLimit) ==> answerCharacters > MAX_ANSWER_CHARACTERS
      ensures match FinalAnswer(old(Model()), v)
              case Done(c) => thrown.None? && Model() == c
              case Throws(c, code) => thrown == Some(code) && Model() == c
    {
      hide HasInk, Is, IsOneOf, KeysWithin;
      if "answer" in v && v["answer"].Obj? { BufferedIsNotStreamed(Get(v["answer"].fields, "delivery")); }
      var verbatim := Get(v, "answerIsProviderVerbatim") == Some(Bool(true));
      if !IsOneOf(Get(v, "outcome"), ["success", "partial", "clarification"]) {
        return if "answer" in v || verbatim then Some(UpstreamIncomplete) else None;
      }
      if "answer" !in v || !v["answer"].Obj? { return Some(UpstreamIncomplete); }
      var answer := v["answer"].fields;
      if !KeysWithin(answer, {"kind", "delivery", "text"})
        || !IsOneOf(Get(answer, "kind"), ["model_text", "meeting_prose", "safe_fallback"]) {
        return Some(UpstreamIncomplete);
      }
      if Is(Get(answer, "delivery"), "buffered") {
        if "text" !in answer || !answer["text"].Str? || !HasInk(answer["text"].s) { return Some(UpstreamIncomplete); }
        answerCharacters := answerCharacters + |answer["text"].s|;
        if answerCharacters > MAX_ANSWER_CHARACTERS { return Some(ResultSizeLimit); }
        return if Is(Get(answer, "kind"), "safe_fallback") && verbatim then Some(UpstreamIncomplete) else None;
      }
      if !Is(Get(answer, "delivery"), "streamed") || "text" in answer || !streamedNonempty
        || !Is(Get(answer, "kind"), "model_text") {
        return Some(UpstreamIncomplete);
      }
      return None;
    }

    /** One complete frame payload. */
    method ConsumeFrame(data: seq<Byte>) returns (thrown: Option<ErrorCode>)
      modifies this
      ensures match Consume(cfg, old(Model()), data)
              case Done(c) => thrown.None? && Model() == c
              case Throws(c, code) => thrown == Some(code) && Model() == c
    {
      hide AcceptedFrame, UsageFrame, ContentFrame, ActivityFrame, DelegationFrame, FinalFrame, Metadata, Is;
      var value := cfg.parse(data);
      if value.None? || !value.value.Obj? { return Some(UpstreamIncomplete); }
      var v := value.value.fields;
      if Get(v, "executionId") != Some(Str(cfg.executionId)) { return Some(RoutingMismatch); }
      if !IsCount(Get(v, "seq")) || v["seq"].n < 1 { return Some(UpstreamIncomplete); }
      if v["seq"].n == lastSeq && data == lastData { return None; }
      if v["seq"].n <= lastSeq { return Some(UpstreamIncomplete); }
      var metadata := Metadata(v);
      if metadata.None? { return Some(UpstreamIncomplete); }
      if cfg.metadataSize(metadata.value) > MAX_METADATA_BYTES { return Some(ResultSizeLimit); }
      var kind := Get(v, "type");
      if !accepted && !Is(kind, "accepted") { return Some(UpstreamIncomplete); }
      if Is(kind, "accepted") { thrown := ConsumeAccepted(v); }
      else if Is(kind, "usage") { thrown := ConsumeUsage(v); }
      else if Is(kind, "content_delta") { thrown := ConsumeContent(v); }
      else if Is(kind, "activity") { thrown := ConsumeActivity(v); }
      else if Is(kind, "delegation_error") { thrown := ConsumeDelegationError(v); }
      else if Is(kind, "final") { thrown := ConsumeFinal(v); }
      else { thrown := Some(UpstreamIncomplete); }
      if thrown.None? {
        lastSeq := v["seq"].n;
        lastData := data;
      }
    }

    /** One chunk from the network: bytes are read until a final frame or an error. */
    method Read(chunk: seq<Byte>) returns (thrown: Option<ErrorCode>)
      requires reader.Valid()
      modifies this, reader`lineSize, reader`dataLines, reader`frameBytes, reader.lineBuffer
      ensures reader.Valid()
      ensures match Receive(cfg, old(Model()), old(reader.Contents()), chunk)
              case Going(c, f) => thrown.None? && Model() == c && reader.Contents() == f
              case Stopped(c, code) => thrown == Some(code) && Model() == c
    {
      hide Consume, PushByte;
      var offset := 0;
      while offset < |chunk| && final.None?
        invariant 0 <= offset <= |chunk| && reader.Valid()
        invariant Receive(cfg, old(Model()), old(reader.Contents()), chunk)
          == Receive(cfg, Model(), reader.Contents(), chunk[offset..])
        decreases |chunk| - offset
      {
        assert chunk[offset..][0] == chunk[offset] && chunk[offset..][1..] == chunk[offset + 1..];
        var event := reader.Push(chunk[offset]);
        if event.Fail? { return Some(CodeOf(event.error)); }
        if event.Frame? {
          thrown := ConsumeFrame(event.payload);
          if thrown.Some? { return; }
        }
        offset := offset + 1;
      }
      return None;
    }
  }
}
