/** Which frames the agent task client consumes, and what each leaves behind, written out field by field. */
module TaskFrames {
  import opened Optional
  import opened TaskFraming
  import opened TaskProtocol

  // ---- Reading fields -----------------------------------------------------------------------------

  predicate Spells(text: Text, name: string) {
    |text| == |name| && forall i :: 0 <= i < |name| ==> text[i] == name[i] as int
  }

  /** The field is this string. */
  predicate Says(v: Fields, key: string, name: string) { key in v && v[key].Str? && Spells(v[key].s, name) }

  predicate SaysOneOf(v: Fields, key: string, names: seq<string>) {
    exists i :: 0 <= i < |names| && Says(v, key, names[i])
  }

  /** The field is this safe count. */
  predicate Counts(v: Fields, key: string, n: int) { key in v && v[key] == Int(n) && 0 <= n <= 9007199254740991 }

  lemma IsSays(v: Fields, key: string, name: string)
    ensures Is(Get(v, key), name) <==> Says(v, key, name)
  {
  }

  lemma IsOneOfSays(v: Fields, key: string, names: seq<string>)
    ensures IsOneOf(Get(v, key), names) <==> SaysOneOf(v, key, names)
  {
    hide Is, Says;
    if IsOneOf(Get(v, key), names) {
      var i :| 0 <= i < |names| && Is(Get(v, key), names[i]);
      IsSays(v, key, names[i]);
    }
    if SaysOneOf(v, key, names) {
      var i :| 0 <= i < |names| && Says(v, key, names[i]);
      IsSays(v, key, names[i]);
    }
  }

  // ---- Usage --------------------------------------------------------------------------------------

  /** The frame carries exactly this usage: the five counts are its fields, none is below the previous one, they
      are ordered with at most five attempts, nothing is counted before a report, and the completeness says
      whether every attempt is finalized. */
  predicate CarriesUsage(v: Fields, previous: Usage, u: Usage) {
    && Counts(v, "promptTokens", u.promptTokens) && Counts(v, "completionTokens", u.completionTokens)
    && Counts(v, "startedAttempts", u.started) && Counts(v, "reportedAttempts", u.reported)
    && Counts(v, "finalizedAttempts", u.finalized)
    && previous.promptTokens <= u.promptTokens && previous.completionTokens <= u.completionTokens
    && previous.started <= u.started && previous.reported <= u.reported && previous.finalized <= u.finalized
    && u.finalized <= u.reported <= u.started <= 5
    && (u.reported == 0 ==> u.promptTokens == 0 && u.completionTokens == 0)
    && (u.complete <==> u.finalized == u.started)
    && Says(v, "usageCompleteness", if u.complete then "complete" else "partial")
  }

  /** A frame's usage is taken exactly when its fields make one, and then it is those fields. */
  lemma UsageIff(v: Fields, previous: Usage, u: Usage)
    ensures ReadUsage(v, previous) == Some(u) <==> CarriesUsage(v, previous, u)
  {
    IsSays(v, "usageCompleteness", "complete");
    IsSays(v, "usageCompleteness", "partial");
    hide Is, Says;
  }

  // ---- Frames that are consumed -------------------------------------------------------------------

  /** Only fields of these names. */
  predicate OnlyFields(v: Fields, names: set<string>) { forall key :: key in v ==> key in names }

  predicate HasText(v: Fields, key: string, max: nat) { key in v && v[key].Str? && 0 < |v[key].s| <= max }

  predicate AcceptedOk(cfg: Config, c: Client, v: Fields) {
    && OnlyFields(v, {"type", "executionId", "seq", "version", "model", "deadlineAt"})
    && !c.accepted && "version" in v && v["version"] == Int(1)
    && "deadlineAt" in v && v["deadlineAt"].Int? && Counts(v, "deadlineAt", v["deadlineAt"].n)
    && 0 < v["deadlineAt"].n <= cfg.deadlineAt
    && "model" in v && v["model"] == Str(cfg.model)
  }

  ghost predicate UsageFrameOk(c: Client, v: Fields) {
    && OnlyFields(v, {"type", "executionId", "seq", "promptTokens", "completionTokens", "startedAttempts",
                      "reportedAttempts", "finalizedAttempts", "usageCompleteness"})
    && exists u :: CarriesUsage(v, c.usage, u)
  }

  predicate ContentOk(c: Client, v: Fields) {
    OnlyFields(v, {"type", "executionId", "seq", "text"}) && HasText(v, "text", 64000)
      && c.answerCharacters + |v["text"].s| <= 64000
  }

  predicate ActivityOk(cfg: Config, v: Fields) {
    && OnlyFields(v, {"type", "executionId", "seq", "tool", "callId", "status"})
    && SaysOneOf(v, "tool", ["web_search", "tinycloud_find_meetings", "tinycloud_read_meeting",
                             "tinycloud_search_transcripts", "tinycloud_list_meeting_actions"])
    && v["tool"].s in cfg.allowedTools && HasText(v, "callId", 256)
    && SaysOneOf(v, "status", ["running", "done", "error"])
  }

  predicate DelegationOk(v: Fields) {
    OnlyFields(v, {"type", "executionId", "seq", "code"})
      && SaysOneOf(v, "code", ["delegation_required", "delegation_expired", "delegation_revoked"])
  }

  predicate Space(u: CodeUnit) {
    u in {0x20, 0xA0, 0x1680, 0x2028, 0x2029, 0x202F, 0x205F, 0x3000, 0xFEFF} || 9 <= u <= 13 || 0x2000 <= u <= 0x200A
  }

  predicate Visible(text: Text) { exists i :: 0 <= i < |text| && !Space(text[i]) }

  /** A lower-case letter, then lower-case letters, digits and underscores, eighty at most. */
  predicate CodeWord(text: Text) {
    && 1 <= |text| <= 80 && 'a' as int <= text[0] <= 'z' as int
    && forall i :: 0 <= i < |text| ==>
         'a' as int <= text[i] <= 'z' as int || '0' as int <= text[i] <= '9' as int || text[i] == '_' as int
  }

  /** No white space and no control character. */
  predicate Token(text: Text) { forall i :: 0 <= i < |text| ==> !Space(text[i]) && text[i] >= 32 && text[i] != 127 }

  predicate AnswerOk(c: Client, answer: Fields, verbatim: bool) {
    && OnlyFields(answer, {"kind", "delivery", "text"})
    && SaysOneOf(answer, "kind", ["model_text", "meeting_prose", "safe_fallback"])
    && !(Says(answer, "kind", "safe_fallback") && verbatim)
    && (|| (&& Says(answer, "delivery", "buffered") && "text" in answer && answer["text"].Str?
            && Visible(answer["text"].s) && c.answerCharacters + |answer["text"].s| <= 64000)
        || (&& Says(answer, "delivery", "streamed") && "text" !in answer && c.streamedNonempty
            && Says(answer, "kind", "model_text")))
  }

  /** The fields of a final frame besides its usage and its answer. */
  predicate FinalHeaderOk(cfg: Config, v: Fields) {
    && OnlyFields(v, {"type", "executionId", "seq", "promptTokens", "completionTokens", "startedAttempts",
                      "reportedAttempts", "finalizedAttempts", "usageCompleteness", "model", "outcome", "code",
                        "answer",
                      "finalProviderCompletionId", "answerIsProviderVerbatim"})
    && "model" in v && v["model"] == Str(cfg.model)
    && SaysOneOf(v, "outcome", ["success", "partial", "clarification", "failed", "cancelled", "timed_out"])
    && "answerIsProviderVerbatim" in v && v["answerIsProviderVerbatim"].Bool?
    && ("code" in v ==> v["code"].Str? && CodeWord(v["code"].s))
    && ("finalProviderCompletionId" in v ==>
          HasText(v, "finalProviderCompletionId", 512) && Token(v["finalProviderCompletionId"].s))
  }

  ghost predicate FinalOk(cfg: Config, c: Client, v: Fields) {
    && FinalHeaderOk(cfg, v)
    && (if SaysOneOf(v, "outcome", ["success", "partial", "clarification"])
        then "answer" in v && v["answer"].Obj? && AnswerOk(c, v["answer"].fields, v["answerIsProviderVerbatim"].b)
        else "answer" !in v && !v["answerIsProviderVerbatim"].b)
    && exists u :: CarriesUsage(v, c.usage, u)
  }

  /** The frame without its answer text, whose size is limited. */
  function Slim(v: Fields): Fields {
    if Says(v, "type", "content_delta") then v - {"text"}
    else if Says(v, "type", "final") && "answer" in v && v["answer"].Obj? then
      v["answer" := Obj(v["answer"].fields - {"text"})]
    else v
  }

  ghost predicate BodyOk(cfg: Config, c: Client, v: Fields) {
    || (Says(v, "type", "accepted") && AcceptedOk(cfg, c, v))
    || (Says(v, "type", "usage") && UsageFrameOk(c, v))
    || (Says(v, "type", "content_delta") && ContentOk(c, v))
    || (Says(v, "type", "activity") && ActivityOk(cfg, v))
    || (Says(v, "type", "delegation_error") && DelegationOk(v))
    || (Says(v, "type", "final") && FinalOk(cfg, c, v))
  }

  /** A new frame of this execution in its place, within the size limit, and nothing but an acceptance first. */
  ghost predicate FrameOk(cfg: Config, c: Client, v: Fields) {
    && "executionId" in v && v["executionId"] == Str(cfg.executionId)
    && "seq" in v && v["seq"].Int? && Counts(v, "seq", v["seq"].n) && 1 <= v["seq"].n && c.lastSeq < v["seq"].n
    && cfg.metadataSize(Slim(v)) <= 16384
    && (c.accepted || Says(v, "type", "accepted"))
    && BodyOk(cfg, c, v)
  }

  predicate IsRepeat(cfg: Config, c: Client, data: seq<Byte>, v: Fields) {
    && data == c.lastData && "executionId" in v && v["executionId"] == Str(cfg.executionId)
    && Counts(v, "seq", c.lastSeq) && 1 <= c.lastSeq
  }

  /** The characters of a buffered answer. */
  function AnswerCharacters(v: Fields): nat {
    if "answer" in v && v["answer"].Obj? && Says(v["answer"].fields, "delivery", "buffered")
       && "text" in v["answer"].fields && v["answer"].fields["text"].Str?
    then |v["answer"].fields["text"].s|
    else 0
  }

  /** The characters of a frame's text: a delta, or a buffered answer. */
  function Characters(v: Fields): nat {
    if Says(v, "type", "content_delta") && "text" in v && v["text"].Str? then |v["text"].s|
    else if Says(v, "type", "final") then AnswerCharacters(v)
    else 0
  }

  /** A delta with visible text. */
  predicate ShowsText(v: Fields) {
    Says(v, "type", "content_delta") && "text" in v && v["text"].Str? && Visible(v["text"].s)
  }

  // ---- The protocol consumes exactly these --------------------------------------------------------

  /** The type of a frame is one. */
  lemma OneType(v: Fields)
    ensures Says(v, "type", "accepted") ==>
      !Says(v, "type", "usage") && !Says(v, "type", "content_delta") && !Says(v, "type", "activity")
        && !Says(v, "type", "delegation_error") && !Says(v, "type", "final")
    ensures Says(v, "type", "usage") ==>
      !Says(v, "type", "content_delta") && !Says(v, "type", "activity") && !Says(v, "type", "delegation_error")
        && !Says(v, "type", "final")
    ensures Says(v, "type", "content_delta") ==>
      !Says(v, "type", "activity") && !Says(v, "type", "delegation_error") && !Says(v, "type", "final")
    ensures Says(v, "type", "activity") ==> !Says(v, "type", "delegation_error") && !Says(v, "type", "final")
    ensures Says(v, "type", "delegation_error") ==> !Says(v, "type", "final")
  {
    assert |"accepted"| == 8 && |"usage"| == 5 && |"content_delta"| == 13;
    assert |"activity"| == 8 && |"delegation_error"| == 16 && |"final"| == 5;
    assert "accepted"[2] == 'c' && "activity"[2] == 't' && "usage"[0] == 'u' && "final"[0] == 'f';
  }

  /** The types as the protocol tests them. */
  lemma TypesAreSaid(v: Fields)
    ensures Is(Get(v, "type"), "accepted") <==> Says(v, "type", "accepted")
    ensures Is(Get(v, "type"), "usage") <==> Says(v, "type", "usage")
    ensures Is(Get(v, "type"), "content_delta") <==> Says(v, "type", "content_delta")
    ensures Is(Get(v, "type"), "activity") <==> Says(v, "type", "activity")
    ensures Is(Get(v, "type"), "delegation_error") <==> Says(v, "type", "delegation_error")
    ensures Is(Get(v, "type"), "final") <==> Says(v, "type", "final")
  {
    hide Is, Says;
    IsSays(v, "type", "accepted");
    IsSays(v, "type", "usage");
    IsSays(v, "type", "content_delta");
    IsSays(v, "type", "activity");
    IsSays(v, "type", "delegation_error");
    IsSays(v, "type", "final");
  }

  lemma OnlyFieldsIff(v: Fields, names: set<string>)
    ensures KeysWithin(v, names) <==> OnlyFields(v, names)
  {
  }

  lemma SpaceIff(u: CodeUnit)
    ensures IsSpace(u) <==> Space(u)
  {
  }

  lemma VisibleIff(t: Text)
    ensures HasInk(t) <==> Visible(t)
  {
    forall i | 0 <= i < |t| ensures IsSpace(t[i]) <==> Space(t[i]) { SpaceIff(t[i]); }
  }

  lemma AcceptedIff(cfg: Config, c: Client, v: Fields)
    ensures var r := AcceptedFrame(cfg, c, v);
            (r.Done? <==> AcceptedOk(cfg, c, v)) && (r.Done? ==> r.client == c.(accepted := true))
  {
    var names := {"type", "executionId", "seq", "version", "model", "deadlineAt"};
    assert ENVELOPE + {"version", "model", "deadlineAt"} == names;
    OnlyFieldsIff(v, names);
    hide OnlyFields, KeysWithin;
  }

  lemma UsageFrameIff(cfg: Config, c: Client, v: Fields)
    ensures
      var r := UsageFrame(cfg, c, v);
      && (r.Done? <==> UsageFrameOk(c, v))
      && (r.Done? ==> exists u :: CarriesUsage(v, c.usage, u) && r.client == ReportUsage(cfg, c.(usage := u)))
  {
    var names := {"type", "executionId", "seq", "promptTokens", "completionTokens", "startedAttempts",
                  "reportedAttempts", "finalizedAttempts", "usageCompleteness"};
    assert ENVELOPE + USAGE_FIELDS == names;
    OnlyFieldsIff(v, names);
    hide OnlyFields, KeysWithin, ReadUsage, CarriesUsage, ReportUsage;
    UsageTaken(v, c.usage);
  }

  lemma UsageTaken(v: Fields, previous: Usage)
    ensures ReadUsage(v, previous).Some? ==> CarriesUsage(v, previous, ReadUsage(v, previous).value)
    ensures ReadUsage(v, previous).Some? <==> exists u :: CarriesUsage(v, previous, u)
  {
    hide ReadUsage, CarriesUsage;
    if ReadUsage(v, previous).Some? { UsageIff(v, previous, ReadUsage(v, previous).value); }
    forall u | CarriesUsage(v, previous, u) ensures ReadUsage(v, previous) == Some(u) { UsageIff(v, previous, u); }
  }

  lemma ContentIff(cfg: Config, c: Client, v: Fields)
    ensures
      var r := ContentFrame(cfg, c, v);
      && (r.Done? <==> ContentOk(c, v))
      && (r.Done? ==>
            var text := v["text"].s;
            var counted := c.(answerCharacters := c.answerCharacters + |text|);
            r.client == DeliverContent(cfg, counted.(streamedNonempty := c.streamedNonempty || Visible(text)), text))
  {
    var names := {"type", "executionId", "seq", "text"};
    assert ENVELOPE + {"text"} == names;
    OnlyFieldsIff(v, names);
    if "text" in v && v["text"].Str? { VisibleIff(v["text"].s); }
    hide OnlyFields, KeysWithin, DeliverContent, HasInk, Visible;
  }

  lemma ActivityIff(cfg: Config, c: Client, v: Fields)
    ensures
      var r := ActivityFrame(cfg, c, v);
      (r.Done? <==> ActivityOk(cfg, v)) && (r.Done? ==> r.client == DeliverActivity(cfg, c))
  {
    var names := {"type", "executionId", "seq", "tool", "callId", "status"};
    assert ENVELOPE + {"tool", "callId", "status"} == names;
    OnlyFieldsIff(v, names);
    IsOneOfSays(v, "tool", TOOLS);
    IsOneOfSays(v, "status", ["running", "done", "error"]);
    hide OnlyFields, KeysWithin, DeliverActivity, Says, Is, IsOneOf;
  }

  lemma DelegationIff(cfg: Config, c: Client, v: Fields)
    ensures
      var r := DelegationFrame(cfg, c, v);
      (r.Done? <==> DelegationOk(v)) && (r.Done? ==> r.client == DeliverDelegationError(cfg, c))
  {
    var names := {"type", "executionId", "seq", "code"};
    assert ENVELOPE + {"code"} == names;
    OnlyFieldsIff(v, names);
    IsOneOfSays(v, "code", DELEGATION_CODES);
    hide OnlyFields, KeysWithin, DeliverDelegationError, Says, Is, IsOneOf;
  }

  lemma CodeWordIff(text: Text)
    ensures IsCodeName(text) <==> CodeWord(text)
  {
  }

  lemma TokenIff(value: Option<Json>)
    ensures IsCompletionId(value) <==>
      value.Some? && value.value.Str? && 0 < |value.value.s| <= 512 && Token(value.value.s)
  {
    if value.Some? && value.value.Str? {
      var text := value.value.s;
      forall i | 0 <= i < |text| ensures IsSpace(text[i]) <==> Space(text[i]) { SpaceIff(text[i]); }
    }
    hide IsSpace, Space;
  }

  lemma FinalProblemIff(cfg: Config, v: Fields)
    ensures FinalProblem(cfg, v).None? <==> FinalHeaderOk(cfg, v)
  {
    var names := {"type", "executionId", "seq", "promptTokens", "completionTokens", "startedAttempts",
                  "reportedAttempts", "finalizedAttempts", "usageCompleteness", "model", "outcome", "code", "answer",
                  "finalProviderCompletionId", "answerIsProviderVerbatim"};
    assert ENVELOPE + USAGE_FIELDS
      + {"model", "outcome", "code", "answer", "finalProviderCompletionId", "answerIsProviderVerbatim"}
           == names;
    OnlyFieldsIff(v, names);
    IsOneOfSays(v, "outcome", OUTCOMES);
    if "code" in v && v["code"].Str? { CodeWordIff(v["code"].s); }
    TokenIff(Get(v, "finalProviderCompletionId"));
    hide OnlyFields, KeysWithin, Says, Is, IsOneOf, SaysOneOf, CodeWord, IsCodeName, Token, IsCompletionId;
  }

  lemma DeliveryIsOne(answer: Fields)
    ensures !(Says(answer, "delivery", "buffered") && Says(answer, "delivery", "streamed"))
    ensures !(Says(answer, "kind", "model_text") && Says(answer, "kind", "safe_fallback"))
  {
    assert |"buffered"| == 8 && |"streamed"| == 8 && "buffered"[0] == 'b' && "streamed"[0] == 's';
    assert |"model_text"| == 10 && |"safe_fallback"| == 13;
  }

  lemma FinalAnswerIff(c: Client, v: Fields)
    requires "answerIsProviderVerbatim" in v && v["answerIsProviderVerbatim"].Bool?
    ensures
      var r := FinalAnswer(c, v);
      var answers := SaysOneOf(v, "outcome", ["success", "partial", "clarification"]);
      && (r.Done? <==>
            if answers
            then "answer" in v && v["answer"].Obj? && AnswerOk(c, v["answer"].fields, v["answerIsProviderVerbatim"].b)
            else "answer" !in v && !v["answerIsProviderVerbatim"].b)
      && (r.Done? ==> r.client == c.(answerCharacters := c.answerCharacters + AnswerCharacters(v)))
  {
    IsOneOfSays(v, "outcome", ["success", "partial", "clarification"]);
    if "answer" in v && v["answer"].Obj? { AnswerIff(v["answer"].fields); DeliveryIsOne(v["answer"].fields); }
    hide OnlyFields, KeysWithin, Says, Is, IsOneOf, SaysOneOf, HasInk, Visible;
  }

  /** The fields of an answer as the protocol tests them. */
  lemma AnswerIff(answer: Fields)
    ensures KeysWithin(answer, {"kind", "delivery", "text"}) <==> OnlyFields(answer, {"kind", "delivery", "text"})
    ensures IsOneOf(Get(answer, "kind"), ["model_text", "meeting_prose", "safe_fallback"]) <==>
      SaysOneOf(answer, "kind", ["model_text", "meeting_prose", "safe_fallback"])
    ensures Is(Get(answer, "delivery"), "buffered") <==> Says(answer, "delivery", "buffered")
    ensures Is(Get(answer, "delivery"), "streamed") <==> Says(answer, "delivery", "streamed")
    ensures Is(Get(answer, "kind"), "safe_fallback") <==> Says(answer, "kind", "safe_fallback")
    ensures Is(Get(answer, "kind"), "model_text") <==> Says(answer, "kind", "model_text")
    ensures "text" in answer && answer["text"].Str? ==> (HasInk(answer["text"].s) <==> Visible(answer["text"].s))
  {
    OnlyFieldsIff(answer, {"kind", "delivery", "text"});
    IsOneOfSays(answer, "kind", ["model_text", "meeting_prose", "safe_fallback"]);
    IsSays(answer, "delivery", "buffered");
    IsSays(answer, "delivery", "streamed");
    IsSays(answer, "kind", "safe_fallback");
    IsSays(answer, "kind", "model_text");
    if "text" in answer && answer["text"].Str? { VisibleIff(answer["text"].s); }
  }

  lemma FinalIff(cfg: Config, c: Client, v: Fields)
    ensures
      var r := FinalFrame(cfg, c, v);
      && (r.Done? <==> FinalOk(cfg, c, v))
      && (r.Done? ==> exists u ::
            && CarriesUsage(v, c.usage, u)
            && r.client == c.(answerCharacters := c.answerCharacters + AnswerCharacters(v), usage := u,
              final := Some(v),
                              observationComplete := u.complete))
  {
    FinalProblemIff(cfg, v);
    UsageTaken(v, c.usage);
    if FinalProblem(cfg, v).None? { FinalAnswerIff(c, v); }
    hide FinalProblem, FinalAnswer, OnlyFields, Says, SaysOneOf, AnswerOk, CodeWord, Token, ReadUsage, CarriesUsage,
         AnswerCharacters;
  }

  // ---- Whole frames -------------------------------------------------------------------------------

  lemma BodyIff(cfg: Config, c: Client, v: Fields)
    ensures Body(cfg, c, v).Done? <==> BodyOk(cfg, c, v)
  {
    OneType(v);
    TypesAreSaid(v);
    AcceptedIff(cfg, c, v);
    UsageFrameIff(cfg, c, v);
    ContentIff(cfg, c, v);
    ActivityIff(cfg, c, v);
    DelegationIff(cfg, c, v);
    FinalIff(cfg, c, v);
    hide Says, Is, AcceptedFrame, UsageFrame, ContentFrame, ActivityFrame, DelegationFrame, FinalFrame, AcceptedOk,
         UsageFrameOk, ContentOk, ActivityOk, DelegationOk, FinalOk, CarriesUsage;
  }

  lemma SlimIs(v: Fields)
    ensures Metadata(v).Some? ==> Metadata(v).value == Slim(v)
    ensures Metadata(v).None? ==> Says(v, "type", "final") && "answer" in v && !v["answer"].Obj?
  {
    OneType(v);
    TypesAreSaid(v);
    hide Says, Is;
  }

  lemma NoObjectNoFinal(cfg: Config, c: Client, v: Fields)
    requires Says(v, "type", "final") && "answer" in v && !v["answer"].Obj?
    ensures !BodyOk(cfg, c, v)
  {
    OneType(v);
    hide Says, SaysOneOf, OnlyFields, CarriesUsage;
  }

  /** A frame is consumed exactly when it is an exact repeat of the last one or a frame that is in order. */
  lemma ConsumedIff(cfg: Config, c: Client, data: seq<Byte>)
    ensures Consume(cfg, c, data).Done? <==>
      && cfg.parse(data).Some? && cfg.parse(data).value.Obj?
      && var v := cfg.parse(data).value.fields; IsRepeat(cfg, c, data, v) || FrameOk(cfg, c, v)
  {
    var value := cfg.parse(data);
    if value.Some? && value.value.Obj? {
      var v := value.value.fields;
      TypesAreSaid(v);
      BodyIff(cfg, c, v);
      SlimIs(v);
      if Metadata(v).None? { NoObjectNoFinal(cfg, c, v); }
    }
    hide Says, Is, Body, BodyOk, Slim, Metadata;
  }

  /** The callbacks leave the position, the counts and the observation alone. */
  ghost predicate OnlyCalled(c: Client, c': Client) {
    && c'.accepted == c.accepted && c'.usage == c.usage && c'.observationComplete == c.observationComplete
    && c'.final == c.final && c'.answerCharacters == c.answerCharacters && c'.streamedNonempty == c.streamedNonempty
    && c'.lastSeq == c.lastSeq && c'.lastData == c.lastData && c'.submitted == c.submitted && c'.settled == c.settled
  }

  /** Each callback is called this often more, and the client is cancelled if one that was called objects. */
  ghost predicate Called(c: Client, c': Client, usage: nat, content: seq<Text>, activity: nat, delegation: nat,
                         objects: bool, code: ErrorCode) {
    && c'.checkpoints == c.checkpoints + usage && c'.delivered == c.delivered + content
    && c'.activities == c.activities + activity && c'.delegationErrors == c.delegationErrors + delegation
    && (c'.cancelled <==> (c.cancelled || (!c.settled && objects)))
    && c'.cancelPosts == c.cancelPosts + (if c'.cancelled && !c.cancelled && c.submitted then 1 else 0)
    && c'.errorCode == (if c'.cancelled && !c.cancelled && c.errorCode.None? then Some(code) else c.errorCode)
  }

  /** The error code that an objection of the usage callback gives. */
  function UsageCode(cfg: Config, c: Client): ErrorCode {
    if cfg.onUsage.Some? && cfg.onUsage.value(c.checkpoints) == OverBudget then BudgetExhausted else AgentFailed
  }

  lemma Cancels(c: Client, code: ErrorCode)
    ensures OnlyCalled(c, Cancel(c, code)) && Called(c, Cancel(c, code), 0, [], 0, 0, true, code)
  {
    assert c.delivered + [] == c.delivered;
  }

  lemma UsageCall(cfg: Config, c: Client)
    ensures var c' := ReportUsage(cfg, c);
            OnlyCalled(c, c') && Called(c, c', if cfg.onUsage.Some? then 1 else 0, [], 0, 0,
                                        cfg.onUsage.Some? && cfg.onUsage.value(c.checkpoints) != Carry,
                                          UsageCode(cfg, c))
  {
    assert c.delivered + [] == c.delivered;
    var called := c.(checkpoints := c.checkpoints + 1);
    Cancels(called, UsageCode(cfg, c));
    hide Cancel;
  }

  lemma ContentCall(cfg: Config, c: Client, text: Text)
    ensures
      var c' := DeliverContent(cfg, c, text);
      var calls := cfg.onContent.Some? && !c.cancelled;
      && OnlyCalled(c, c')
      && Called(c, c', 0, if calls then [text]
        else [], 0, 0, calls && cfg.onContent.value(|c.delivered|) != Taken, AgentFailed)
  {
    assert c.delivered + [] == c.delivered;
  }

  lemma ActivityCall(cfg: Config, c: Client)
    ensures
      var c' := DeliverActivity(cfg, c);
      var calls := cfg.onActivity.Some? && !c.cancelled;
      OnlyCalled(c, c') && Called(c, c', 0, [], if calls then 1
        else 0, 0, calls && cfg.onActivity.value(c.activities) == Threw, AgentFailed)
  {
    assert c.delivered + [] == c.delivered;
  }

  lemma DelegationCall(cfg: Config, c: Client)
    ensures
      var c' := DeliverDelegationError(cfg, c);
      var calls := cfg.onDelegationError.Some? && !c.cancelled;
      && OnlyCalled(c, c')
      && Called(c, c', 0, [], 0, if calls then 1
        else 0, calls && cfg.onDelegationError.value(c.delegationErrors) != Taken, AgentFailed)
  {
    assert c.delivered + [] == c.delivered;
    Cancels(c.(delegationErrors := c.delegationErrors + 1), AgentFailed);
    hide Cancel;
  }

  predicate Calls<T>(isType: bool, callback: Option<T>, live: bool) { isType && callback.Some? && live }

  /** Which callback a frame goes to: the usage callback even of a cancelled client, any other only of one that is
      not; an activity may be refused. */
  ghost predicate CalledFor(cfg: Config, c: Client, c': Client, v: Fields) {
    var usage := Calls(Says(v, "type", "usage"), cfg.onUsage, true);
    var content := Calls(Says(v, "type", "content_delta"), cfg.onContent, !c.cancelled);
    var activity := Calls(Says(v, "type", "activity"), cfg.onActivity, !c.cancelled);
    var delegation := Calls(Says(v, "type", "delegation_error"), cfg.onDelegationError, !c.cancelled);
    var objects :=
      || (usage && cfg.onUsage.value(c.checkpoints) != Carry)
      || (content && cfg.onContent.value(|c.delivered|) != Taken)
      || (activity && cfg.onActivity.value(c.activities) == Threw)
      || (delegation && cfg.onDelegationError.value(c.delegationErrors) != Taken);
    Called(c, c', if usage then 1 else 0, if content && "text" in v && v["text"].Str? then [v["text"].s] else [],
           if activity then 1 else 0, if delegation then 1 else 0, objects, if usage then UsageCode(cfg, c)
           else AgentFailed)
  }

  /** What a body leaves behind, before the position is taken over. */
  ghost predicate BodyLeaves(cfg: Config, c: Client, c': Client, v: Fields) {
    && c'.lastSeq == c.lastSeq && c'.lastData == c.lastData && c'.submitted == c.submitted && c'.settled == c.settled
    && c'.accepted == (c.accepted || Says(v, "type", "accepted"))
    && (if Says(v, "type", "usage") || Says(v, "type", "final") then CarriesUsage(v, c.usage, c'.usage)
        else c'.usage == c.usage)
    && (if Says(v, "type", "final") then c'.final == Some(v) && c'.observationComplete == c'.usage.complete
        else c'.final == c.final && c'.observationComplete == c.observationComplete)
    && c'.answerCharacters == c.answerCharacters + Characters(v)
    && (c'.streamedNonempty <==> (c.streamedNonempty || ShowsText(v)))
    && CalledFor(cfg, c, c', v)
  }

  lemma NoCall(c: Client, c': Client)
    requires c'.checkpoints == c.checkpoints && c'.delivered == c.delivered && c'.activities == c.activities
      && c'.delegationErrors == c.delegationErrors && c'.cancelled == c.cancelled && c'.cancelPosts == c.cancelPosts
      && c'.errorCode == c.errorCode
    ensures Called(c, c', 0, [], 0, 0, false, AgentFailed)
  {
    assert c.delivered + [] == c.delivered;
  }

  lemma AcceptedLeaves(cfg: Config, c: Client, v: Fields)
    requires Says(v, "type", "accepted") && AcceptedFrame(cfg, c, v).Done?
    ensures BodyLeaves(cfg, c, AcceptedFrame(cfg, c, v).client, v)
  {
    OneType(v);
    AcceptedIff(cfg, c, v);
    hide Says, AcceptedFrame, AcceptedOk, Called, CarriesUsage;
    NoCall(c, c.(accepted := true));
  }

  lemma UsageLeaves(cfg: Config, c: Client, v: Fields)
    requires Says(v, "type", "usage") && UsageFrame(cfg, c, v).Done?
    ensures BodyLeaves(cfg, c, UsageFrame(cfg, c, v).client, v)
  {
    OneType(v);
    UsageFrameIff(cfg, c, v);
    hide Says, UsageFrame, UsageFrameOk, CarriesUsage, ReportUsage;
    var u :| CarriesUsage(v, c.usage, u) && UsageFrame(cfg, c, v).client == ReportUsage(cfg, c.(usage := u));
    UsageCall(cfg, c.(usage := u));
  }

  lemma ContentLeaves(cfg: Config, c: Client, v: Fields)
    requires Says(v, "type", "content_delta") && ContentFrame(cfg, c, v).Done?
    ensures BodyLeaves(cfg, c, ContentFrame(cfg, c, v).client, v)
  {
    OneType(v);
    ContentIff(cfg, c, v);
    hide Says, ContentFrame, OnlyFields, DeliverContent, Visible;
    var text := v["text"].s;
    var counted := c.(answerCharacters := c.answerCharacters + |text|);
    ContentCall(cfg, counted.(streamedNonempty := c.streamedNonempty || Visible(text)), text);
  }

  lemma ActivityLeaves(cfg: Config, c: Client, v: Fields)
    requires Says(v, "type", "activity") && ActivityFrame(cfg, c, v).Done?
    ensures BodyLeaves(cfg, c, ActivityFrame(cfg, c, v).client, v)
  {
    OneType(v);
    ActivityIff(cfg, c, v);
    hide Says, ActivityFrame, ActivityOk, DeliverActivity, CarriesUsage;
    ActivityCall(cfg, c);
  }

  lemma DelegationLeaves(cfg: Config, c: Client, v: Fields)
    requires Says(v, "type", "delegation_error") && DelegationFrame(cfg, c, v).Done?
    ensures BodyLeaves(cfg, c, DelegationFrame(cfg, c, v).client, v)
  {
    OneType(v);
    DelegationIff(cfg, c, v);
    hide Says, DelegationFrame, DelegationOk, DeliverDelegationError, CarriesUsage;
    DelegationCall(cfg, c);
  }

  lemma FinalLeaves(cfg: Config, c: Client, v: Fields)
    requires Says(v, "type", "final") && FinalFrame(cfg, c, v).Done?
    ensures BodyLeaves(cfg, c, FinalFrame(cfg, c, v).client, v)
  {
    OneType(v);
    FinalIff(cfg, c, v);
    hide Says, FinalFrame, FinalOk, CarriesUsage, AnswerCharacters, Called;
    NoCall(c, FinalFrame(cfg, c, v).client);
  }

  lemma BodyEffects(cfg: Config, c: Client, v: Fields)
    requires Body(cfg, c, v).Done?
    ensures BodyLeaves(cfg, c, Body(cfg, c, v).client, v)
  {
    TypesAreSaid(v);
    hide Says, Is, AcceptedFrame, UsageFrame, ContentFrame, ActivityFrame, DelegationFrame, FinalFrame, BodyLeaves;
    if Says(v, "type", "accepted") { AcceptedLeaves(cfg, c, v); }
    else if Says(v, "type", "usage") { UsageLeaves(cfg, c, v); }
    else if Says(v, "type", "content_delta") { ContentLeaves(cfg, c, v); }
    else if Says(v, "type", "activity") { ActivityLeaves(cfg, c, v); }
    else if Says(v, "type", "delegation_error") { DelegationLeaves(cfg, c, v); }
    else { FinalLeaves(cfg, c, v); }
  }

  /** A consumed frame leaves behind exactly what its fields say and calls exactly the callback it is for; an exact
      repeat leaves everything as it was. */
  lemma ConsumedEffect(cfg: Config, c: Client, data: seq<Byte>)
    requires Consume(cfg, c, data).Done?
    ensures
      var v := cfg.parse(data).value.fields;
      var c' := Consume(cfg, c, data).client;
      if IsRepeat(cfg, c, data, v) then c' == c
      else
        c'.lastSeq == v["seq"].n && c'.lastData == data
          && BodyLeaves(cfg, c, c'.(lastSeq := c.lastSeq, lastData := c.lastData), v)
  {
    ConsumedIff(cfg, c, data);
    var v := cfg.parse(data).value.fields;
    if !IsRepeat(cfg, c, data, v) {
      hide BodyLeaves, Body, Metadata, FrameOk, Is;
      ConsumesBody(cfg, c, data, v);
      BodyEffects(cfg, c, v);
    }
  }

  lemma ConsumesBody(cfg: Config, c: Client, data: seq<Byte>, v: Fields)
    requires cfg.parse(data) == Some(Obj(v)) && Consume(cfg, c, data).Done? && !IsRepeat(cfg, c, data, v)
    ensures "seq" in v && v["seq"].Int? && Body(cfg, c, v).Done?
      && Consume(cfg, c, data).client == Body(cfg, c, v).client.(lastSeq := v["seq"].n, lastData := data)
  {
    hide Body, Metadata, Is;
  }

  // ---- Frames that are refused --------------------------------------------------------------------

  /** A new frame of this execution, and if it is final with an answer, the answer is an object. */
  predicate InPlace(cfg: Config, c: Client, v: Fields) {
    && "executionId" in v && v["executionId"] == Str(cfg.executionId)
    && "seq" in v && v["seq"].Int? && Counts(v, "seq", v["seq"].n) && 1 <= v["seq"].n && c.lastSeq < v["seq"].n
    && (Says(v, "type", "final") && "answer" in v ==>
          v["answer"].Obj? || v["answer"] in {Null, Bool(false), Int(0), Str([])})
  }

  predicate WithinMetadata(cfg: Config, v: Fields) { cfg.metadataSize(Slim(v)) <= 16384 }

  /** An acceptance or a final frame that is in order up to its model. */
  predicate NamesOtherModel(cfg: Config, c: Client, v: Fields) {
    && !("model" in v && v["model"] == Str(cfg.model))
    && (|| (&& Says(v, "type", "accepted") && !c.accepted
            && OnlyFields(v, {"type", "executionId", "seq", "version", "model", "deadlineAt"})
            && "version" in v && v["version"] == Int(1)
            && "deadlineAt" in v && v["deadlineAt"].Int? && Counts(v, "deadlineAt", v["deadlineAt"].n)
            && 0 < v["deadlineAt"].n <= cfg.deadlineAt)
        || (&& Says(v, "type", "final") && c.accepted
            && OnlyFields(v, {"type", "executionId", "seq", "promptTokens", "completionTokens", "startedAttempts",
                              "reportedAttempts", "finalizedAttempts", "usageCompleteness", "model", "outcome", "code",
                              "answer", "finalProviderCompletionId", "answerIsProviderVerbatim"})))
  }

  /** A buffered answer that is in order up to its characters, of which there are too many. */
  predicate TooManyInAnswer(c: Client, v: Fields) {
    && SaysOneOf(v, "outcome", ["success", "partial", "clarification"]) && "answer" in v && v["answer"].Obj?
    && var answer := v["answer"].fields;
       && OnlyFields(answer, {"kind", "delivery", "text"})
       && SaysOneOf(answer, "kind", ["model_text", "meeting_prose", "safe_fallback"])
       && Says(answer, "delivery", "buffered") && "text" in answer && answer["text"].Str? && Visible(answer["text"].s)
       && c.answerCharacters + |answer["text"].s| > 64000
  }

  /** A delta or a buffered answer that is in order up to the characters, of which there are too many. */
  predicate TooManyCharacters(cfg: Config, c: Client, v: Fields) {
    || (&& Says(v, "type", "content_delta") && OnlyFields(v, {"type", "executionId", "seq", "text"})
        && "text" in v && v["text"].Str? && v["text"].s != []
        && (|v["text"].s| > 64000 || c.answerCharacters + |v["text"].s| > 64000))
    || (Says(v, "type", "final") && FinalHeaderOk(cfg, v) && TooManyInAnswer(c, v))
  }

  predicate Misrouted(cfg: Config, c: Client, v: Fields) {
    || !("executionId" in v && v["executionId"] == Str(cfg.executionId))
    || (InPlace(cfg, c, v) && WithinMetadata(cfg, v) && NamesOtherModel(cfg, c, v))
  }

  predicate TooLarge(cfg: Config, c: Client, v: Fields) {
    InPlace(cfg, c, v) && (!WithinMetadata(cfg, v) || (c.accepted && TooManyCharacters(cfg, c, v)))
  }

  lemma AcceptedCode(cfg: Config, c: Client, v: Fields)
    requires Says(v, "type", "accepted") && AcceptedFrame(cfg, c, v).Throws?
    ensures AcceptedFrame(cfg, c, v) == Throws(c, if NamesOtherModel(cfg, c, v) then RoutingMismatch
        else UpstreamIncomplete)
  {
    OneType(v);
    var names := {"type", "executionId", "seq", "version", "model", "deadlineAt"};
    assert ENVELOPE + {"version", "model", "deadlineAt"} == names;
    OnlyFieldsIff(v, names);
    hide OnlyFields, KeysWithin, Says;
  }

  lemma ContentCode(cfg: Config, c: Client, v: Fields)
    requires Says(v, "type", "content_delta") && ContentFrame(cfg, c, v).Throws?
    ensures
      var r := ContentFrame(cfg, c, v);
      && r.code == (if TooManyCharacters(cfg, c, v) then ResultSizeLimit else UpstreamIncomplete)
      && r.client == c.(answerCharacters := r.client.answerCharacters)
      && c.answerCharacters <= r.client.answerCharacters <= c.answerCharacters + Characters(v)
  {
    OneType(v);
    var names := {"type", "executionId", "seq", "text"};
    assert ENVELOPE + {"text"} == names;
    OnlyFieldsIff(v, names);
    hide OnlyFields, KeysWithin, Says, DeliverContent, HasInk, FinalHeaderOk;
  }

  lemma FinalProblemCode(cfg: Config, c: Client, v: Fields)
    requires Says(v, "type", "final") && c.accepted && FinalProblem(cfg, v).Some?
    ensures FinalProblem(cfg, v).value == if NamesOtherModel(cfg, c, v) then RoutingMismatch else UpstreamIncomplete
  {
    OneType(v);
    var names := {"type", "executionId", "seq", "promptTokens", "completionTokens", "startedAttempts",
                  "reportedAttempts", "finalizedAttempts", "usageCompleteness", "model", "outcome", "code", "answer",
                  "finalProviderCompletionId", "answerIsProviderVerbatim"};
    assert ENVELOPE + USAGE_FIELDS
      + {"model", "outcome", "code", "answer", "finalProviderCompletionId", "answerIsProviderVerbatim"}
           == names;
    OnlyFieldsIff(v, names);
    hide OnlyFields, KeysWithin, Says, Is, IsOneOf, IsCodeName, IsCompletionId;
  }

  lemma FinalAnswerCode(c: Client, v: Fields)
    requires "answerIsProviderVerbatim" in v && v["answerIsProviderVerbatim"].Bool? && FinalAnswer(c, v).Throws?
    ensures
      var r := FinalAnswer(c, v);
      && r.code == (if TooManyInAnswer(c, v) then ResultSizeLimit else UpstreamIncomplete)
      && r.client == c.(answerCharacters := r.client.answerCharacters)
      && c.answerCharacters <= r.client.answerCharacters <= c.answerCharacters + AnswerCharacters(v)
  {
    IsOneOfSays(v, "outcome", ["success", "partial", "clarification"]);
    hide IsOneOf, SaysOneOf;
    if SaysOneOf(v, "outcome", ["success", "partial", "clarification"]) && "answer" in v && v["answer"].Obj? {
      AnswerCode(c, v);
    }
  }

  lemma AnswerCode(c: Client, v: Fields)
    requires "answerIsProviderVerbatim" in v && v["answerIsProviderVerbatim"].Bool? && FinalAnswer(c, v).Throws?
    requires IsOneOf(Get(v, "outcome"), ["success", "partial", "clarification"]) && "answer" in v && v["answer"].Obj?
    ensures
      var r := FinalAnswer(c, v);
      && r.code == (if TooManyInAnswer(c, v) then ResultSizeLimit else UpstreamIncomplete)
      && r.client == c.(answerCharacters := r.client.answerCharacters)
      && c.answerCharacters <= r.client.answerCharacters <= c.answerCharacters + AnswerCharacters(v)
  {
    IsOneOfSays(v, "outcome", ["success", "partial", "clarification"]);
    AnswerIff(v["answer"].fields);
    DeliveryIsOne(v["answer"].fields);
    hide OnlyFields, KeysWithin, Says, Is, IsOneOf, SaysOneOf, HasInk, Visible;
  }

  lemma FinalCode(cfg: Config, c: Client, v: Fields)
    requires Says(v, "type", "final") && c.accepted && FinalFrame(cfg, c, v).Throws?
    ensures
      var r := FinalFrame(cfg, c, v);
      && r.code == (if NamesOtherModel(cfg, c, v) then RoutingMismatch
                    else if TooManyCharacters(cfg, c, v) then ResultSizeLimit else UpstreamIncomplete)
      && r.client == c.(answerCharacters := r.client.answerCharacters)
      && c.answerCharacters <= r.client.answerCharacters <= c.answerCharacters + Characters(v)
  {
    OneType(v);
    FinalProblemIff(cfg, v);
    if FinalProblem(cfg, v).Some? {
      FinalProblemCode(cfg, c, v);
    } else if FinalAnswer(c, v).Throws? {
      FinalAnswerCode(c, v);
    } else {
      FinalAnswerIff(c, v);
    }
    hide FinalProblem, FinalAnswer, OnlyFields, Says, SaysOneOf, CodeWord, Token, ReadUsage, AnswerCharacters, Visible;
  }

  /** The frame gets as far as its body. */
  predicate ReachesBody(cfg: Config, c: Client, v: Fields) {
    InPlace(cfg, c, v) && WithinMetadata(cfg, v) && (c.accepted || Says(v, "type", "accepted"))
  }

  lemma RefusedBeforeBody(cfg: Config, c: Client, data: seq<Byte>, v: Fields)
    requires cfg.parse(data) == Some(Obj(v)) && Consume(cfg, c, data).Throws? && !ReachesBody(cfg, c, v)
    ensures Consume(cfg, c, data) == Throws(c,
      if Misrouted(cfg, c, v) then RoutingMismatch else if TooLarge(cfg, c, v) then ResultSizeLimit
      else UpstreamIncomplete)
  {
    TypesAreSaid(v);
    SlimIs(v);
    PlaceIff(v);
    Unaccepted(cfg, c, v);
    hide Says, Is, Body, Metadata, Slim, NamesOtherModel, TooManyCharacters;
  }

  lemma RefusedInBody(cfg: Config, c: Client, data: seq<Byte>, v: Fields)
    requires cfg.parse(data) == Some(Obj(v)) && Consume(cfg, c, data).Throws? && ReachesBody(cfg, c, v)
    ensures Consume(cfg, c, data) == Body(cfg, c, v)
  {
    TypesAreSaid(v);
    SlimIs(v);
    PlaceIff(v);
    hide Says, Is, Body, Metadata, Slim;
  }

  /** A refused frame leaves the client as it was, except that characters it brought may have been counted; the code
      is that of a wrong execution or model, of too large a frame or answer, or else of a broken stream. */
  lemma RefusedEffect(cfg: Config, c: Client, data: seq<Byte>)
    requires Consume(cfg, c, data).Throws?
    ensures
      var r := Consume(cfg, c, data);
      var value := cfg.parse(data);
      && r.client == c.(answerCharacters := r.client.answerCharacters)
      && if value.None? || !value.value.Obj? then r.client == c && r.code == UpstreamIncomplete
         else
           var v := value.value.fields;
           && c.answerCharacters <= r.client.answerCharacters <= c.answerCharacters + Characters(v)
           && r.code == (if Misrouted(cfg, c, v) then RoutingMismatch else if TooLarge(cfg, c, v) then ResultSizeLimit
                         else UpstreamIncomplete)
  {
    var value := cfg.parse(data);
    if value.Some? && value.value.Obj? {
      var v := value.value.fields;
      if ReachesBody(cfg, c, v) {
        RefusedInBody(cfg, c, data, v);
        hide Consume, Body, Says, InPlace, WithinMetadata, NamesOtherModel, TooManyCharacters, Characters;
        BodyCode(cfg, c, v);
        InPlaceIsRouted(cfg, c, v);
      } else {
        RefusedBeforeBody(cfg, c, data, v);
      }
    }
  }

  lemma InPlaceIsRouted(cfg: Config, c: Client, v: Fields)
    requires InPlace(cfg, c, v)
    ensures "executionId" in v && v["executionId"] == Str(cfg.executionId)
  {
  }

  /** Without metadata an answer is neither an object nor nothing. */
  lemma PlaceIff(v: Fields)
    ensures Metadata(v).Some? <==> (Says(v, "type", "final") && "answer" in v ==>
      v["answer"].Obj? || v["answer"] in {Null, Bool(false), Int(0), Str([])})
  {
    TypesAreSaid(v);
    OneType(v);
    hide Says, Is;
  }

  lemma Unaccepted(cfg: Config, c: Client, v: Fields)
    ensures !c.accepted && !Says(v, "type", "accepted") ==> !NamesOtherModel(cfg, c, v)
  {
  }

  lemma BodyCode(cfg: Config, c: Client, v: Fields)
    requires (c.accepted || Says(v, "type", "accepted")) && Body(cfg, c, v).Throws?
    ensures
      var r := Body(cfg, c, v);
      && r.code == (if NamesOtherModel(cfg, c, v) then RoutingMismatch
                    else if c.accepted && TooManyCharacters(cfg, c, v) then ResultSizeLimit else UpstreamIncomplete)
      && r.client == c.(answerCharacters := r.client.answerCharacters)
      && c.answerCharacters <= r.client.answerCharacters <= c.answerCharacters + Characters(v)
  {
    OneType(v);
    TypesAreSaid(v);
    hide Says, Is, AcceptedFrame, ContentFrame, FinalFrame, OnlyFields, FinalHeaderOk, ReadUsage, ReportUsage;
    if Says(v, "type", "accepted") { AcceptedCode(cfg, c, v); }
    else if Says(v, "type", "content_delta") { ContentCode(cfg, c, v); }
    else if Says(v, "type", "final") { FinalCode(cfg, c, v); }
  }
}
