/** The frame protocol of backend/src/agent-task-client.ts: strict validation of every frame, usage
    accounting, delivery to the callbacks and the cancellation latch.

    JSON.parse and the serialised size of a frame's metadata are functions of the configuration. The
    callbacks answer by call number, so a run is a function of its inputs. */
module TaskProtocol {
  import opened Optional
  import opened TaskFraming

  /** UTF-16 code units, the unit of JavaScript string lengths. */
  type CodeUnit = c: int | 0 <= c < 65536
  type Text = seq<CodeUnit>

  datatype Json = Null | Bool(b: bool) | Int(n: int) | Fraction | Str(s: Text) | Arr | Obj(fields: map<string, Json>)
  type Fields = map<string, Json>

  datatype ErrorCode =
    | TaskUnavailable | AgentFailed | UpstreamIncomplete
    | RoutingMismatch | ResultSizeLimit | TurnTimeout | BudgetExhausted
  datatype Usage = Usage(promptTokens: nat, completionTokens: nat, started: nat, reported: nat, finalized: nat,
      complete: bool)

  datatype Reply = Taken | RefusedIt | Threw
  datatype UsageReply = Carry | OverBudget | UsageThrew

  datatype Config = Config(
    executionId: Text, model: Text, deadlineAt: int, allowedTools: seq<Text>,
    parse: seq<Byte> -> Option<Json>, metadataSize: Fields -> nat,
    onContent: Option<nat -> Reply>, onActivity: Option<nat -> Reply>, onDelegationError: Option<nat -> Reply>,
    onUsage: Option<nat -> UsageReply>)

  /** The result object and the local variables of one run, with what its callbacks and the cancel
      endpoint have received so far. */
  datatype Client = Client(
    accepted: bool, cancelled: bool, usage: Usage, observationComplete: bool, final: Option<Fields>,
      errorCode: Option<ErrorCode>,
    submitted: bool, settled: bool, lastSeq: int, lastData: seq<Byte>, answerCharacters: nat, streamedNonempty: bool,
    delivered: seq<Text>, activities: nat, delegationErrors: nat, checkpoints: nat, cancelPosts: nat)

  const MAX_METADATA_BYTES: nat := 16384
  const MAX_ANSWER_CHARACTERS: nat := 64000
  const MAX_SAFE_INTEGER: int := 9007199254740991
  const TOOLS: seq<string> := ["web_search", "tinycloud_find_meetings", "tinycloud_read_meeting",
    "tinycloud_search_transcripts", "tinycloud_list_meeting_actions"]
  const DELEGATION_CODES: seq<string> := ["delegation_required", "delegation_expired", "delegation_revoked"]
  const OUTCOMES: seq<string> := ["success", "partial", "clarification", "failed", "cancelled", "timed_out"]
  const ENVELOPE: set<string> := {"type", "executionId", "seq"}
  const USAGE_FIELDS: set<string> := {"promptTokens", "completionTokens", "startedAttempts", "reportedAttempts",
    "finalizedAttempts", "usageCompleteness"}
  const NO_USAGE: Usage := Usage(0, 0, 0, 0, 0, true)
  const FRESH_CLIENT: Client := Client(false, false, NO_USAGE, false, None, None, false, false, -1, [], 0, false, [],
    0, 0, 0, 0)

  // ---- Reading JSON values ------------------------------------------------------------------------

  function Get(v: Fields, key: string): Option<Json> { if key in v then Some(v[key]) else None }

  predicate Is(value: Option<Json>, name: string) {
    value.Some? && value.value.Str? && |value.value.s| == |name|
      && forall i :: 0 <= i < |name| ==> value.value.s[i] == name[i] as int
  }

  predicate IsOneOf(value: Option<Json>, names: seq<string>) { exists i :: 0 <= i < |names| && Is(value, names[i]) }

  /** A safe non-negative integer. */
  predicate IsCount(value: Option<Json>) { value.Some? && value.value.Int? && 0 <= value.value.n <= MAX_SAFE_INTEGER }

  predicate IsText(value: Option<Json>, max: nat) { value.Some? && value.value.Str? && 0 < |value.value.s| <= max }

  predicate Truthy(value: Option<Json>) {
    value.Some? && value.value != Null && value.value != Bool(false) && value.value != Int(0) && value.value != Str([])
  }

  predicate IsSpace(c: CodeUnit) {
    9 <= c <= 13 || c == 32 || c == 0xA0 || c == 0x1680 || 0x2000 <= c <= 0x200A || c == 0x2028 || c == 0x2029
      || c == 0x202F || c == 0x205F || c == 0x3000 || c == 0xFEFF
  }

  /** `trim()` leaves something. */
  predicate HasInk(t: Text) { exists i :: 0 <= i < |t| && !IsSpace(t[i]) }

  predicate IsLower(c: CodeUnit) { 97 <= c <= 122 }

  /** /^[a-z][a-z0-9_]{0,79}$/ */
  predicate IsCodeName(t: Text) {
    0 < |t| <= 80 && IsLower(t[0]) && forall i :: 0 <= i < |t| ==> IsLower(t[i]) || 48 <= t[i] <= 57 || t[i] == 95
  }

  /** Non-empty, at most 512 units, without white space or control characters. */
  predicate IsCompletionId(value: Option<Json>) {
    IsText(value, 512) && forall i ::
      0 <= i < |value.value.s| ==> !IsSpace(value.value.s[i]) && 31 < value.value.s[i] != 127
  }

  // ---- Usage --------------------------------------------------------------------------------------

  predicate UsageOk(u: Usage) {
    && u.finalized <= u.reported <= u.started <= 5
    && (u.reported == 0 ==> u.promptTokens == 0 && u.completionTokens == 0)
    && (u.complete <==> u.finalized == u.started)
  }

  /** No count decreases. */
  predicate UsageGrows(a: Usage, b: Usage) {
    a.promptTokens <= b.promptTokens && a.completionTokens <= b.completionTokens && a.started <= b.started
    && a.reported <= b.reported && a.finalized <= b.finalized
  }

  predicate CountFrom(v: Fields, key: string, previous: nat) { IsCount(Get(v, key)) && v[key].n >= previous }

  function ReadUsage(v: Fields, previous: Usage): Option<Usage> {
    if !CountFrom(v, "promptTokens", previous.promptTokens)
      || !CountFrom(v, "completionTokens", previous.completionTokens)
       || !CountFrom(v, "startedAttempts", previous.started) || !CountFrom(v, "reportedAttempts", previous.reported)
       || !CountFrom(v, "finalizedAttempts", previous.finalized)
    then None
    else
      var p, c, s, r, f := v["promptTokens"].n, v["completionTokens"].n, v["startedAttempts"].n,
        v["reportedAttempts"].n, v["finalizedAttempts"].n;
      if f > r || r > s || s > 5 then None
      else if r == 0 && (p != 0 || c != 0) then None
      else if !Is(Get(v, "usageCompleteness"), if f == s then "complete" else "partial") then None
      else Some(Usage(p, c, s, r, f, f == s))
  }

  // ---- Cancelling and delivering ------------------------------------------------------------------

  /** The first cancellation latches; a submitted run sends one cancel request. `code` is the error code
      that goes with the reason. */
  function Cancel(c: Client, code: ErrorCode): Client {
    if c.settled || c.cancelled then c
    else c.(cancelled := true, errorCode := if c.errorCode.Some? then c.errorCode else Some(code),
            cancelPosts := if c.submitted then c.cancelPosts + 1 else c.cancelPosts)
  }

  /** A callback that refuses (unless it is optional) or throws cancels the run. */
  function AfterReply(c: Client, reply: Reply, optional: bool): Client {
    if reply == Threw || (reply == RefusedIt && !optional) then Cancel(c, AgentFailed) else c
  }

  function DeliverContent(cfg: Config, c: Client, text: Text): Client {
    if cfg.onContent.None? || c.cancelled then c
    else AfterReply(c.(delivered := c.delivered + [text]), cfg.onContent.value(|c.delivered|), false)
  }

  function DeliverActivity(cfg: Config, c: Client): Client {
    if cfg.onActivity.None? || c.cancelled then c
    else AfterReply(c.(activities := c.activities + 1), cfg.onActivity.value(c.activities), true)
  }

  function DeliverDelegationError(cfg: Config, c: Client): Client {
    if cfg.onDelegationError.None? || c.cancelled then c
    else
      AfterReply(c.(delegationErrors := c.delegationErrors + 1), cfg.onDelegationError.value(c.delegationErrors), false)
  }

  /** The usage callback is called even after a cancellation. */
  function ReportUsage(cfg: Config, c: Client): Client {
    if cfg.onUsage.None? then c
    else
      var called := c.(checkpoints := c.checkpoints + 1);
      match cfg.onUsage.value(c.checkpoints)
      case Carry => called
      case OverBudget => Cancel(called, BudgetExhausted)
      case UsageThrew => Cancel(called, AgentFailed)
  }

  // ---- Frames -------------------------------------------------------------------------------------

  datatype Outcome = Done(client: Client) | Throws(client: Client, code: ErrorCode)

  predicate KeysWithin(v: Fields, allowed: set<string>) { v.Keys <= allowed }

  /** The size limit applies to the frame without its answer text; None when `answer` is no object. */
  function Metadata(v: Fields): Option<Fields> {
    var v' := if Is(Get(v, "type"), "content_delta") then v - {"text"} else v;
    if Is(Get(v, "type"), "final") && Truthy(Get(v, "answer")) then
      if v["answer"].Obj? then Some(v'["answer" := Obj(v["answer"].fields - {"text"})]) else None
    else Some(v')
  }

  function AcceptedFrame(cfg: Config, c: Client, v: Fields): Outcome {
    if !KeysWithin(v, ENVELOPE + {"version", "model", "deadlineAt"}) then Throws(c, UpstreamIncomplete)
    else if c.accepted || Get(v, "version") != Some(Int(1)) || !IsCount(Get(v, "deadlineAt"))
            || v["deadlineAt"].n == 0 || v["deadlineAt"].n > cfg.deadlineAt then Throws(c, UpstreamIncomplete)
    else if Get(v, "model") != Some(Str(cfg.model)) then Throws(c, RoutingMismatch)
    else Done(c.(accepted := true))
  }

  function UsageFrame(cfg: Config, c: Client, v: Fields): Outcome {
    if !KeysWithin(v, ENVELOPE + USAGE_FIELDS) then Throws(c, UpstreamIncomplete)
    else
      match ReadUsage(v, c.usage)
      case None => Throws(c, UpstreamIncomplete)
      case Some(usage) => Done(ReportUsage(cfg, c.(usage := usage)))
  }

  function ContentFrame(cfg: Config, c: Client, v: Fields): Outcome {
    if !KeysWithin(v, ENVELOPE + {"text"}) then Throws(c, UpstreamIncomplete)
    else if !IsText(Get(v, "text"), MAX_ANSWER_CHARACTERS) then
      Throws(c, if Get(v, "text").Some? && v["text"].Str?
        && |v["text"].s| > MAX_ANSWER_CHARACTERS then ResultSizeLimit else UpstreamIncomplete)
    else
      var text := v["text"].s;
      var counted := c.(answerCharacters := c.answerCharacters + |text|);
      if counted.answerCharacters > MAX_ANSWER_CHARACTERS then Throws(counted, ResultSizeLimit)
      else Done(DeliverContent(cfg, counted.(streamedNonempty := c.streamedNonempty || HasInk(text)), text))
  }

  /** A known tool that the request allows, a call id and a known status, and nothing else. */
  predicate ActivityFieldsOk(cfg: Config, v: Fields) {
    && KeysWithin(v, ENVELOPE + {"tool", "callId", "status"})
    && IsOneOf(Get(v, "tool"), TOOLS) && v["tool"].s in cfg.allowedTools && IsText(Get(v, "callId"), 256)
    && IsOneOf(Get(v, "status"), ["running", "done", "error"])
  }

  function ActivityFrame(cfg: Config, c: Client, v: Fields): Outcome {
    if !ActivityFieldsOk(cfg, v) then Throws(c, UpstreamIncomplete) else Done(DeliverActivity(cfg, c))
  }

  function DelegationFrame(cfg: Config, c: Client, v: Fields): Outcome {
    if !KeysWithin(v, ENVELOPE + {"code"}) then Throws(c, UpstreamIncomplete)
    else if !IsOneOf(Get(v, "code"), DELEGATION_CODES) then Throws(c, UpstreamIncomplete)
    else Done(DeliverDelegationError(cfg, c))
  }

  /** The checks on a final frame's answer, and the characters it adds. */
  function FinalAnswer(c: Client, v: Fields): Outcome {
    var verbatim := Get(v, "answerIsProviderVerbatim") == Some(Bool(true));
    if IsOneOf(Get(v, "outcome"), ["success", "partial", "clarification"]) then
      if Get(v, "answer").None? || !v["answer"].Obj? then Throws(c, UpstreamIncomplete) else
      var answer := v["answer"].fields;
      if !KeysWithin(answer, {"kind", "delivery", "text"})
        || !IsOneOf(Get(answer, "kind"), ["model_text", "meeting_prose", "safe_fallback"])
        then Throws(c, UpstreamIncomplete)
      else if Is(Get(answer, "delivery"), "buffered") then
        if Get(answer, "text").None? || !answer["text"].Str?
          || !HasInk(answer["text"].s) then Throws(c, UpstreamIncomplete) else
        var counted := c.(answerCharacters := c.answerCharacters + |answer["text"].s|);
        if counted.answerCharacters > MAX_ANSWER_CHARACTERS then Throws(counted, ResultSizeLimit)
        else if Is(Get(answer, "kind"), "safe_fallback") && verbatim then Throws(counted, UpstreamIncomplete)
        else Done(counted)
      else if !Is(Get(answer, "delivery"), "streamed") || Get(answer, "text").Some? || !c.streamedNonempty
        || !Is(Get(answer, "kind"), "model_text")
      then Throws(c, UpstreamIncomplete)
      else Done(c)
    else if Get(v, "answer").Some? || verbatim then Throws(c, UpstreamIncomplete)
    else Done(c)
  }

  /** The checks on a final frame's own fields, before its answer. */
  function FinalProblem(cfg: Config, v: Fields): Option<ErrorCode> {
    if !KeysWithin(v, ENVELOPE + USAGE_FIELDS
      + {"model", "outcome", "code", "answer", "finalProviderCompletionId", "answerIsProviderVerbatim"})
      then Some(UpstreamIncomplete)
    else if Get(v, "model") != Some(Str(cfg.model)) then Some(RoutingMismatch)
    else if !IsOneOf(Get(v, "outcome"), OUTCOMES) || Get(v, "answerIsProviderVerbatim").None?
      || !v["answerIsProviderVerbatim"].Bool? then Some(UpstreamIncomplete)
    else if Get(v, "code").Some? && !(v["code"].Str? && IsCodeName(v["code"].s)) then Some(UpstreamIncomplete)
    else if Get(v, "finalProviderCompletionId").Some?
      && !IsCompletionId(Get(v, "finalProviderCompletionId")) then Some(UpstreamIncomplete)
    else None
  }

  function FinalFrame(cfg: Config, c: Client, v: Fields): Outcome {
    if FinalProblem(cfg, v).Some? then Throws(c, FinalProblem(cfg, v).value)
    else
      match FinalAnswer(c, v)
      case Throws(c', code) => Throws(c', code)
      case Done(c') =>
        match ReadUsage(v, c.usage)
        case None => Throws(c', UpstreamIncomplete)
        case Some(usage) => Done(c'.(usage := usage, final := Some(v), observationComplete := usage.complete))
  }

  function Body(cfg: Config, c: Client, v: Fields): Outcome {
    var kind := Get(v, "type");
    if Is(kind, "accepted") then AcceptedFrame(cfg, c, v)
    else if Is(kind, "usage") then UsageFrame(cfg, c, v)
    else if Is(kind, "content_delta") then ContentFrame(cfg, c, v)
    else if Is(kind, "activity") then ActivityFrame(cfg, c, v)
    else if Is(kind, "delegation_error") then DelegationFrame(cfg, c, v)
    else if Is(kind, "final") then FinalFrame(cfg, c, v)
    else Throws(c, UpstreamIncomplete)
  }

  /** One frame payload: `consume` of the source. */
  function Consume(cfg: Config, c: Client, data: seq<Byte>): Outcome {
    var value := cfg.parse(data);
    if value.None? || !value.value.Obj? then Throws(c, UpstreamIncomplete) else
    var v := value.value.fields;
    if Get(v, "executionId") != Some(Str(cfg.executionId)) then Throws(c, RoutingMismatch)
    else if !IsCount(Get(v, "seq")) || v["seq"].n < 1 then Throws(c, UpstreamIncomplete)
    else if v["seq"].n == c.lastSeq && data == c.lastData then Done(c)
    else if v["seq"].n <= c.lastSeq then Throws(c, UpstreamIncomplete)
    else if Metadata(v).None? then Throws(c, UpstreamIncomplete)
    else if cfg.metadataSize(Metadata(v).value) > MAX_METADATA_BYTES then Throws(c, ResultSizeLimit)
    else if !c.accepted && !Is(Get(v, "type"), "accepted") then Throws(c, UpstreamIncomplete)
    else
      match Body(cfg, c, v)
      case Throws(c', code) => Throws(c', code)
      case Done(c') => Done(c'.(lastSeq := v["seq"].n, lastData := data))
  }

  // ---- Invariants of a run ------------------------------------------------------------------------

  /** The text a frame hands over, if it is a content delta. */
  function DeltaText(cfg: Config, data: seq<Byte>): seq<Text> {
    var value := cfg.parse(data);
    if value.Some? && value.value.Obj? && Is(Get(value.value.fields, "type"), "content_delta")
       && Get(value.value.fields, "text").Some? && value.value.fields["text"].Str?
    then [value.value.fields["text"].s] else []
  }

  /** The deltas of a frame sequence in order; an exact repeat of the previous frame counts once. */
  function Deltas(cfg: Config, frames: seq<seq<Byte>>): seq<Text> {
    if frames == [] then [] else
    var before, data := frames[..|frames| - 1], frames[|frames| - 1];
    Deltas(cfg, before) + (if before != [] && before[|before| - 1] == data then [] else DeltaText(cfg, data))
  }

  function TotalLength(texts: seq<Text>): nat {
    if texts == [] then 0 else TotalLength(texts[..|texts| - 1]) + |texts[|texts| - 1]|
  }

  /** What holds of a client at every moment, even when a frame was refused. */
  ghost predicate Sound(c: Client) {
    && UsageOk(c.usage)
    && (!c.accepted ==>
      c.usage == NO_USAGE && c.delivered == [] && c.activities == c.delegationErrors == c.checkpoints == 0
      && c.final.None?)
    && (c.observationComplete <==> c.final.Some? && c.usage.complete)
    && (c.cancelled ==> c.errorCode.Some?)
    && c.cancelPosts <= 1 && (c.cancelPosts == 1 ==> c.submitted && c.cancelled)
  }

  /** What holds after exactly these frames have been consumed without a refusal. */
  ghost predicate Consumed(cfg: Config, c: Client, frames: seq<seq<Byte>>) {
    && Sound(c)
    && (frames == [] ==> c.lastSeq == -1)
    && (frames != [] ==> c.accepted)
    && (frames != [] ==> c.lastData == frames[|frames| - 1] && SeqOf(cfg, c.lastData) == Some(c.lastSeq))
    && c.delivered <= Deltas(cfg, frames)
    && (!c.cancelled && cfg.onContent.Some? ==> c.delivered == Deltas(cfg, frames))
    && TotalLength(Deltas(cfg, frames)) <= c.answerCharacters <= MAX_ANSWER_CHARACTERS
  }

  function SeqOf(cfg: Config, data: seq<Byte>): Option<int> {
    var value := cfg.parse(data);
    if value.Some? && value.value.Obj? && Get(value.value.fields, "seq").Some? && value.value.fields["seq"].Int?
    then Some(value.value.fields["seq"].n) else None
  }

  /** How a client may change from one moment to a later one. */
  ghost predicate Progresses(c: Client, c': Client) {
    && UsageGrows(c.usage, c'.usage)
    && (c.accepted ==> c'.accepted) && (c.cancelled ==> c'.cancelled) && (c.settled ==> c'.settled)
    && (c.submitted ==> c'.submitted)
    && (c.errorCode.Some? ==> c'.errorCode == c.errorCode)
    && (c.final.Some? ==> c'.final == c.final)
    && c.delivered <= c'.delivered
    && (c.cancelled ==>
      c'.delivered == c.delivered && c'.activities == c.activities && c'.delegationErrors == c.delegationErrors)
    && c.cancelPosts <= c'.cancelPosts && (c.cancelled ==> c'.cancelPosts == c.cancelPosts)
  }

  lemma CancelIsSound(c: Client, code: ErrorCode)
    requires Sound(c)
    ensures Sound(Cancel(c, code)) && Progresses(c, Cancel(c, code))
  {
  }

  /** Is(v, "a") and Is(v, "b") exclude each other. */
  lemma ContentDeltaIsNoOther(value: Option<Json>)
    requires Is(value, "content_delta")
    ensures !Is(value, "accepted") && !Is(value, "usage") && !Is(value, "activity") && !Is(value, "delegation_error")
      && !Is(value, "final")
  {
  }

  lemma UsageIsSound(v: Fields, previous: Usage)
    requires ReadUsage(v, previous).Some?
    ensures UsageOk(ReadUsage(v, previous).value) && UsageGrows(previous, ReadUsage(v, previous).value)
  {
  }

  /** Frames neither submit nor settle a run. */
  ghost predicate SamePhase(c: Client, c': Client) { c'.submitted == c.submitted && c'.settled == c.settled }

  /** The effect of a frame that delivers no content. */
  ghost predicate Silent(c: Client, r: Outcome) {
    && Sound(r.client) && Progresses(c, r.client) && SamePhase(c, r.client) && r.client.delivered == c.delivered
    && (r.Done? ==> c.answerCharacters <= r.client.answerCharacters
                    && (c.answerCharacters <= MAX_ANSWER_CHARACTERS ==>
                      r.client.answerCharacters <= MAX_ANSWER_CHARACTERS))
  }

  lemma AcceptedIsSilent(cfg: Config, c: Client, v: Fields)
    requires Sound(c) && c.final.None?
    ensures Silent(c, AcceptedFrame(cfg, c, v))
  {
  }

  lemma UsageIsSilent(cfg: Config, c: Client, v: Fields)
    requires Sound(c) && c.final.None? && c.accepted
    ensures Silent(c, UsageFrame(cfg, c, v))
  {
    hide ReadUsage, ReportUsage, KeysWithin;
    if ReadUsage(v, c.usage).Some? {
      UsageIsSound(v, c.usage);
      ReportIsSilent(cfg, c, ReadUsage(v, c.usage).value);
    }
  }

  lemma ReportIsSilent(cfg: Config, c: Client, usage: Usage)
    requires Sound(c) && c.final.None? && c.accepted && UsageOk(usage) && UsageGrows(c.usage, usage)
    ensures Silent(c, Done(ReportUsage(cfg, c.(usage := usage))))
  {
    hide UsageOk, UsageGrows;
  }

  lemma ActivityIsSilent(cfg: Config, c: Client, v: Fields)
    requires Sound(c) && c.final.None? && c.accepted
    ensures Silent(c, ActivityFrame(cfg, c, v))
  {
    hide ActivityFieldsOk;
  }

  lemma DelegationIsSilent(cfg: Config, c: Client, v: Fields)
    requires Sound(c) && c.final.None? && c.accepted
    ensures Silent(c, DelegationFrame(cfg, c, v))
  {
    hide KeysWithin, IsOneOf;
  }

  lemma FinalAnswerEffect(c: Client, v: Fields)
    ensures var r := FinalAnswer(c, v);
            && r.client == c.(answerCharacters := r.client.answerCharacters)
            && (r.Done? ==> c.answerCharacters <= r.client.answerCharacters
                            && (c.answerCharacters <= MAX_ANSWER_CHARACTERS ==>
                              r.client.answerCharacters <= MAX_ANSWER_CHARACTERS))
  {
    hide IsOneOf, HasInk, Is, KeysWithin, Get;
  }

  lemma FinalIsSilent(cfg: Config, c: Client, v: Fields)
    requires Sound(c) && c.final.None? && c.accepted
    ensures Silent(c, FinalFrame(cfg, c, v))
  {
    hide ReadUsage, FinalAnswer, FinalProblem;
    FinalAnswerEffect(c, v);
    if ReadUsage(v, c.usage).Some? { UsageIsSound(v, c.usage); }
  }

  /** A content delta adds its text to the characters and, unless cancelled, hands it over once. */
  lemma ContentEffect(cfg: Config, c: Client, v: Fields)
    requires Sound(c) && c.final.None? && c.accepted
    ensures
      var r := ContentFrame(cfg, c, v);
      && Sound(r.client) && Progresses(c, r.client) && SamePhase(c, r.client)
      && (r.Throws? ==> r.client.delivered == c.delivered)
      && (r.Done? ==>
            && Get(v, "text").Some? && v["text"].Str?
            && r.client.answerCharacters == c.answerCharacters + |v["text"].s| <= MAX_ANSWER_CHARACTERS
            && r.client.delivered == (if cfg.onContent.Some? && !c.cancelled then c.delivered + [v["text"].s]
              else c.delivered))
  {
    hide HasInk;
  }

  /** No frame but a content delta delivers content. */
  lemma BodyEffect(cfg: Config, c: Client, v: Fields)
    requires Sound(c) && c.final.None? && (c.accepted || Is(Get(v, "type"), "accepted"))
    ensures if Is(Get(v, "type"), "content_delta") then Body(cfg, c, v) == ContentFrame(cfg, c, v) && c.accepted
        else Silent(c, Body(cfg, c, v))
  {
    hide AcceptedFrame, UsageFrame, ContentFrame, ActivityFrame, DelegationFrame, FinalFrame;
    if Is(Get(v, "type"), "content_delta") {
      ContentDeltaIsNoOther(Get(v, "type"));
    } else {
      AcceptedIsSilent(cfg, c, v);
      if c.accepted {
        UsageIsSilent(cfg, c, v);
        ActivityIsSilent(cfg, c, v);
        DelegationIsSilent(cfg, c, v);
        FinalIsSilent(cfg, c, v);
      }
    }
  }

  /** The account of deliveries after one more frame that was not an exact repeat. */
  lemma AccountGrows(cfg: Config, c: Client, c': Client, frames: seq<seq<Byte>>, data: seq<Byte>)
    requires Consumed(cfg, c, frames) && (frames != [] ==> frames[|frames| - 1] != data)
    requires var texts := DeltaText(cfg, data);
             if texts == [] then c'.delivered == c.delivered
             else c'.delivered == (if cfg.onContent.Some? && !c.cancelled then c.delivered + texts else c.delivered)
    requires |DeltaText(cfg, data)| == 1 ==> c'.answerCharacters == c.answerCharacters + |DeltaText(cfg, data)[0]|
    requires c.answerCharacters <= c'.answerCharacters && (c.cancelled ==> c'.cancelled)
    ensures c'.delivered <= Deltas(cfg, frames + [data])
    ensures !c'.cancelled && cfg.onContent.Some? ==> c'.delivered == Deltas(cfg, frames + [data])
    ensures TotalLength(Deltas(cfg, frames + [data])) <= c'.answerCharacters
  {
    assert |DeltaText(cfg, data)| <= 1;
    hide Sound, DeltaText, SeqOf;
    assert (frames + [data])[..|frames|] == frames;
    var before, texts := Deltas(cfg, frames), DeltaText(cfg, data);
    assert Deltas(cfg, frames + [data]) == before + texts;
    if texts == [] {
      assert before + texts == before;
    } else {
      assert |texts| == 1;
      assert (before + texts)[..|before|] == before;
      assert (before + texts)[|before|] == texts[0];
    }
  }

  lemma RepeatKeepsAccount(cfg: Config, c: Client, frames: seq<seq<Byte>>, data: seq<Byte>)
    requires Consumed(cfg, c, frames) && frames != [] && frames[|frames| - 1] == data
    ensures Consumed(cfg, c, frames + [data])
  {
    assert (frames + [data])[..|frames|] == frames;
    assert Deltas(cfg, frames) + [] == Deltas(cfg, frames);
  }

  lemma FirstBodyAccepts(cfg: Config, c: Client, v: Fields)
    requires Is(Get(v, "type"), "accepted") && Body(cfg, c, v).Done?
    ensures Body(cfg, c, v).client.accepted
  {
    hide Is, UsageFrame, ContentFrame, ActivityFrame, DelegationFrame, FinalFrame;
  }

  /** The client after a frame that was neither refused nor a repeat. */
  lemma NewFrameKeeps(cfg: Config, c: Client, frames: seq<seq<Byte>>, data: seq<Byte>, v: Fields)
    requires Consumed(cfg, c, frames) && c.final.None? && (c.accepted || Is(Get(v, "type"), "accepted"))
    requires cfg.parse(data) == Some(Obj(v)) && IsCount(Get(v, "seq")) && v["seq"].n > c.lastSeq
      && Body(cfg, c, v).Done?
    ensures var c' := Body(cfg, c, v).client.(lastSeq := v["seq"].n, lastData := data);
            Consumed(cfg, c', frames + [data]) && Progresses(c, c') && SamePhase(c, c')
  {
    hide Body, ContentFrame, Is, Deltas, TotalLength;
    var c' := Body(cfg, c, v).client.(lastSeq := v["seq"].n, lastData := data);
    BodyEffect(cfg, c, v);
    if c.accepted { ContentEffect(cfg, c, v); } else { FirstBodyAccepts(cfg, c, v); }
    AccountGrows(cfg, c, c', frames, data);
  }

  lemma RefusedBodyDelivers(cfg: Config, c: Client, v: Fields)
    requires Sound(c) && c.final.None? && (c.accepted || Is(Get(v, "type"), "accepted"))
    ensures var r := Body(cfg, c, v);
            r.Throws? ==>
              Sound(r.client) && Progresses(c, r.client) && SamePhase(c, r.client) && r.client.delivered == c.delivered
  {
    hide Body, ContentFrame, Is;
    BodyEffect(cfg, c, v);
    if c.accepted { ContentEffect(cfg, c, v); }
  }

  /** What one frame leaves behind: a consumed frame extends the account of what was delivered, a refused
      one delivers nothing. */
  ghost predicate Kept(cfg: Config, c: Client, frames: seq<seq<Byte>>, data: seq<Byte>, r: Outcome) {
    && Sound(r.client) && Progresses(c, r.client) && SamePhase(c, r.client)
    && (r.Done? ==> Consumed(cfg, r.client, frames + [data]))
    && (r.Throws? ==> r.client.delivered == c.delivered)
  }

  lemma RefusedKeeps(cfg: Config, c: Client, frames: seq<seq<Byte>>, data: seq<Byte>)
    requires Consumed(cfg, c, frames)
    ensures forall code :: Kept(cfg, c, frames, data, Throws(c, code))
  {
    hide Deltas, TotalLength;
  }

  lemma RepeatKeeps(cfg: Config, c: Client, frames: seq<seq<Byte>>, data: seq<Byte>)
    requires Consumed(cfg, c, frames) && c.lastSeq >= 1 && c.lastData == data
    ensures Kept(cfg, c, frames, data, Done(c))
  {
    RepeatKeepsAccount(cfg, c, frames, data);
  }

  lemma BodyKeeps(cfg: Config, c: Client, frames: seq<seq<Byte>>, data: seq<Byte>, v: Fields)
    requires Consumed(cfg, c, frames) && c.final.None? && (c.accepted || Is(Get(v, "type"), "accepted"))
    requires cfg.parse(data) == Some(Obj(v)) && IsCount(Get(v, "seq")) && v["seq"].n > c.lastSeq
    ensures match Body(cfg, c, v)
            case Done(b) => Kept(cfg, c, frames, data, Done(b.(lastSeq := v["seq"].n, lastData := data)))
            case Throws(b, code) => Kept(cfg, c, frames, data, Throws(b, code))
  {
    RefusedKeeps(cfg, c, frames, data);
    hide Body, Is, Sound, Progresses, SamePhase, Deltas, TotalLength;
    RefusedBodyDelivers(cfg, c, v);
    if Body(cfg, c, v).Done? { NewFrameKeeps(cfg, c, frames, data, v); }
  }

  /** Every consumed frame extends the account of what was delivered; a refused frame delivers nothing
      beyond it. */
  lemma ConsumeKeeps(cfg: Config, c: Client, frames: seq<seq<Byte>>, data: seq<Byte>)
    requires Consumed(cfg, c, frames) && c.final.None?
    ensures Kept(cfg, c, frames, data, Consume(cfg, c, data))
  {
    RefusedKeeps(cfg, c, frames, data);
    hide Body, Metadata, Is, Kept, Consumed;
    var value := cfg.parse(data);
    if value.Some? && value.value.Obj? {
      var v := value.value.fields;
      if IsCount(Get(v, "seq")) && v["seq"].n == c.lastSeq && data == c.lastData {
        if c.lastSeq >= 1 { RepeatKeeps(cfg, c, frames, data); }
      } else if IsCount(Get(v, "seq")) && v["seq"].n > c.lastSeq && (c.accepted || Is(Get(v, "type"), "accepted")) {
        BodyKeeps(cfg, c, frames, data, v);
      }
    }
  }

  /** An exact repeat of the last frame changes nothing. */
  lemma RepeatChangesNothing(cfg: Config, c: Client, frames: seq<seq<Byte>>, data: seq<Byte>)
    requires Consumed(cfg, c, frames) && c.final.None? && Consume(cfg, c, data).Done?
    ensures Consume(cfg, Consume(cfg, c, data).client, data) == Consume(cfg, c, data)
  {
    ConsumeKeeps(cfg, c, frames, data);
  }

  /** A frame of this execution that accepts it: version 1, the requested model, and a deadline within the
      requested one. */
  predicate IsAcceptance(cfg: Config, data: seq<Byte>) {
    var value := cfg.parse(data);
    && value.Some? && value.value.Obj?
    && var v := value.value.fields;
    && Is(Get(v, "type"), "accepted") && KeysWithin(v, ENVELOPE + {"version", "model", "deadlineAt"})
    && Get(v, "executionId") == Some(Str(cfg.executionId)) && IsCount(Get(v, "seq")) && v["seq"].n >= 1
    && Get(v, "version") == Some(Int(1)) && Get(v, "model") == Some(Str(cfg.model))
    && IsCount(Get(v, "deadlineAt")) && 0 < v["deadlineAt"].n <= cfg.deadlineAt
    && cfg.metadataSize(v) <= MAX_METADATA_BYTES
  }

  /** Before the run is accepted, a frame is consumed exactly when it is a valid acceptance; that accepts the
      run and changes nothing else than the frame position, and every other frame fails without any effect. */
  lemma NothingBeforeAccepted(cfg: Config, c: Client, frames: seq<seq<Byte>>, data: seq<Byte>)
    requires Consumed(cfg, c, frames) && c.final.None? && !c.accepted
    ensures var r := Consume(cfg, c, data);
            && (r.Done? <==> IsAcceptance(cfg, data))
            && (r.Done? ==>
              r.client == c.(accepted := true, lastSeq := r.client.lastSeq, lastData := data)
              && SeqOf(cfg, data) == Some(r.client.lastSeq))
            && (r.Throws? ==> r.client == c)
  {
    hide UsageFrame, ContentFrame, ActivityFrame, DelegationFrame, FinalFrame, Deltas, TotalLength;
    assert c.lastSeq == -1;
    var value := cfg.parse(data);
    if value.Some? && value.value.Obj? { AcceptedMetadata(value.value.fields); }
  }

  lemma AcceptedMetadata(v: Fields)
    ensures Is(Get(v, "type"), "accepted") ==> Metadata(v) == Some(v)
  {
  }
}
