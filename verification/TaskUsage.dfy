/** The usage of a run of the agent task client: at every moment it is what the last consumed frame with usage says. */
module TaskUsage {
  import opened Optional
  import opened TaskFraming
  import opened TaskProtocol
  import opened TaskFrames
  import opened TaskRun

  /** The frame is one that carries usage. */
  predicate BearsUsage(cfg: Config, data: seq<Byte>) {
    && cfg.parse(data).Some? && cfg.parse(data).value.Obj?
    && var v := cfg.parse(data).value.fields; Says(v, "type", "usage") || Says(v, "type", "final")
  }

  /** The frame carries exactly this usage. */
  predicate Bears(cfg: Config, data: seq<Byte>, u: Usage) {
    BearsUsage(cfg, data) && CarriesUsage(cfg.parse(data).value.fields, NO_USAGE, u)
  }

  predicate NoneFrom(cfg: Config, frames: seq<seq<Byte>>, i: nat) {
    forall j :: i <= j < |frames| ==> !BearsUsage(cfg, frames[j])
  }

  /** The usage is that of the last of these frames that carries one, or none at all. */
  ghost predicate UsageOf(cfg: Config, frames: seq<seq<Byte>>, u: Usage) {
    || (u == NO_USAGE && NoneFrom(cfg, frames, 0))
    || exists i: nat :: i < |frames| && Bears(cfg, frames[i], u) && NoneFrom(cfg, frames, i + 1)
  }

  lemma OneMoreWithout(cfg: Config, frames: seq<seq<Byte>>, data: seq<Byte>, u: Usage)
    requires UsageOf(cfg, frames, u) && !BearsUsage(cfg, data)
    ensures UsageOf(cfg, frames + [data], u)
  {
    var more := frames + [data];
    assert more[|frames|] == data && forall j :: 0 <= j < |frames| ==> more[j] == frames[j];
    if i: nat :| i < |frames| && Bears(cfg, frames[i], u) && NoneFrom(cfg, frames, i + 1) {
      assert Bears(cfg, more[i], u) && NoneFrom(cfg, more, i + 1);
    }
  }

  lemma OneMoreWith(cfg: Config, frames: seq<seq<Byte>>, data: seq<Byte>, u: Usage)
    requires Bears(cfg, data, u)
    ensures UsageOf(cfg, frames + [data], u)
  {
    assert Bears(cfg, (frames + [data])[|frames|], u) && NoneFrom(cfg, frames + [data], |frames| + 1);
  }

  /** A repeat of the last frame. */
  lemma OneMoreRepeat(cfg: Config, frames: seq<seq<Byte>>, u: Usage)
    requires frames != [] && UsageOf(cfg, frames, u)
    ensures UsageOf(cfg, frames + [frames[|frames| - 1]], u)
  {
    var last := frames[|frames| - 1];
    if BearsUsage(cfg, last) {
      if i: nat :| i < |frames| && Bears(cfg, frames[i], u) && NoneFrom(cfg, frames, i + 1) {
        assert i == |frames| - 1;
        OneMoreWith(cfg, frames, last, u);
      }
    } else {
      OneMoreWithout(cfg, frames, last, u);
    }
  }

  lemma FromNothing(v: Fields, previous: Usage, u: Usage)
    requires CarriesUsage(v, previous, u)
    ensures CarriesUsage(v, NO_USAGE, u)
  {
    hide Says;
  }

  /** The final frame carries the usage. */
  ghost predicate FinalUsage(c: Client) { c.final.Some? ==> CarriesUsage(c.final.value, NO_USAGE, c.usage) }

  lemma ConsumeUsage(cfg: Config, c: Client, frames: seq<seq<Byte>>, data: seq<Byte>)
    requires Consumed(cfg, c, frames) && c.final.None? && UsageOf(cfg, frames, c.usage)
    ensures
      var r := Consume(cfg, c, data);
      && (if r.Done? then UsageOf(cfg, frames + [data], r.client.usage) else r.client.usage == c.usage)
      && FinalUsage(r.client)
  {
    hide Deltas, TotalLength, UsageOf, Body;
    if Consume(cfg, c, data).Done? {
      ConsumedIff(cfg, c, data);
      ConsumedEffect(cfg, c, data);
      hide Consume, Says, FrameOk, CarriesUsage, CalledFor;
      var v := cfg.parse(data).value.fields;
      var c' := Consume(cfg, c, data).client;
      if IsRepeat(cfg, c, data, v) {
        RepeatedIsLast(cfg, c, frames, data);
        OneMoreRepeat(cfg, frames, c.usage);
      } else if BearsUsage(cfg, data) {
        FromNothing(v, c.usage, c'.usage);
        OneMoreWith(cfg, frames, data, c'.usage);
      } else {
        OneMoreWithout(cfg, frames, data, c.usage);
      }
    } else {
      RefusedEffect(cfg, c, data);
    }
  }

  lemma RepeatedIsLast(cfg: Config, c: Client, frames: seq<seq<Byte>>, data: seq<Byte>)
    requires Consumed(cfg, c, frames) && data == c.lastData && c.lastSeq >= 1
    ensures frames != [] && frames[|frames| - 1] == data
  {
    hide Deltas, TotalLength;
  }

  /** The usage is that of some beginning of the frames. */
  ghost predicate UsageOfSome(cfg: Config, frames: seq<seq<Byte>>, u: Usage) {
    exists n: nat :: n <= |frames| && UsageOf(cfg, frames[..n], u)
  }

  lemma OfAll(cfg: Config, frames: seq<seq<Byte>>, u: Usage)
    requires UsageOf(cfg, frames, u)
    ensures UsageOfSome(cfg, frames, u)
  {
    assert frames[..|frames|] == frames;
  }

  lemma OfSomeLater(cfg: Config, frames: seq<seq<Byte>>, more: seq<seq<Byte>>, u: Usage)
    requires UsageOfSome(cfg, frames, u)
    ensures UsageOfSome(cfg, frames + more, u)
  {
    var n: nat :| n <= |frames| && UsageOf(cfg, frames[..n], u);
    assert (frames + more)[..n] == frames[..n];
  }

  lemma {:induction false} ConsumeAllUsage(cfg: Config, c: Client, frames: seq<seq<Byte>>, s: Stream)
    requires Consumed(cfg, c, frames) && c.final.None? && UsageOf(cfg, frames, c.usage)
    ensures
      var r := ConsumeAll(cfg, c, s);
      && UsageOfSome(cfg, frames + s.frames, r.0.usage)
      && (r.1.None? && r.0.final.None? ==> UsageOf(cfg, frames + s.frames, r.0.usage))
      && FinalUsage(r.0)
    decreases |s.frames|
  {
    hide Consume, Consumed, UsageOf, UsageOfSome;
    if s.frames == [] {
      assert frames + s.frames == frames;
      OfAll(cfg, frames, c.usage);
    } else {
      var r := Consume(cfg, c, s.frames[0]);
      ConsumeKeeps(cfg, c, frames, s.frames[0]);
      ConsumeUsage(cfg, c, frames, s.frames[0]);
      assert frames + [s.frames[0]] + s.frames[1..] == frames + s.frames;
      if r.Throws? {
        OfAll(cfg, frames, c.usage);
        OfSomeLater(cfg, frames, s.frames, c.usage);
      } else if r.client.final.Some? {
        OfAll(cfg, frames + [s.frames[0]], r.client.usage);
        OfSomeLater(cfg, frames + [s.frames[0]], s.frames[1..], r.client.usage);
      } else {
        ConsumeAllUsage(cfg, r.client, frames + [s.frames[0]], Stream(s.frames[1..], s.end));
      }
    }
  }

  // ---- Runs ---------------------------------------------------------------------------------------

  function Received(r: Run): seq<seq<Byte>> { Frames(FRESH_FRAMING, r.received).frames }

  /** The usage of a run is that of a beginning of the received frames; while it goes on, of all of them. */
  ghost predicate UsageIsCarried(cfg: Config, r: Run) {
    && FinalUsage(r.client) && UsageOfSome(cfg, Received(r), r.client.usage)
    && (!r.phase.Over? ==> UsageOf(cfg, Received(r), r.client.usage))
  }

  lemma CaughtKeepsUsage(r: Run, code: ErrorCode)
    ensures Caught(r, code).client.usage == r.client.usage && Caught(r, code).client.final == r.client.final
    ensures Caught(r, code).received == r.received && Caught(r, code).phase.Over?
  {
  }

  lemma CancelKeepsUsage(r: Run, code: ErrorCode)
    ensures CancelRun(r, code).client.usage == r.client.usage && CancelRun(r, code).client.final == r.client.final
    ensures CancelRun(r, code).received == r.received
      && CancelRun(r, code).phase == r.phase
  {
  }

  lemma ChunkUsage(cfg: Config, r: Run, bytes: seq<Byte>)
    requires Inv(cfg, r) && r.phase.Reading? && UsageIsCarried(cfg, r)
    ensures UsageIsCarried(cfg, ReceiveChunk(cfg, r, bytes))
  {
    var before, s := Frames(FRESH_FRAMING, r.received), Frames(r.framing, bytes);
    assert Consumed(cfg, r.client, before.frames);
    hide Consumed, Receive, Frames, ConsumeAll, Deltas, EndsAtFinal, UsageOf, UsageOfSome;
    FramesConcat(FRESH_FRAMING, r.received, bytes);
    ReceiveConsumesFrames(cfg, r.client, r.framing, bytes);
    ConsumeAllUsage(cfg, r.client, before.frames, s);
    assert Frames(FRESH_FRAMING, r.received + bytes) == Stream(before.frames + s.frames, s.end);
    var p := Receive(cfg, r.client, r.framing, bytes);
    if p.Stopped? { CaughtKeepsUsage(r.(client := p.client, received := r.received + bytes), p.code); }
  }

  lemma NextUsage(cfg: Config, r: Run, act: Act)
    requires Inv(cfg, r) && UsageIsCarried(cfg, r)
    ensures UsageIsCarried(cfg, Next(cfg, r, act))
  {
    hide Frames, Consumed, ReceiveChunk, Caught, CancelRun, UsageOf, UsageOfSome, Deltas, EndsAtFinal;
    if !r.phase.Over? {
      match act
      case Abort(timeout) => CancelKeepsUsage(r, if timeout then TurnTimeout else AgentFailed);
      case Chunk(bytes) => if r.phase.Reading? { ChunkUsage(cfg, r, bytes); }
      case _ =>
        CaughtKeepsUsage(r, TaskUnavailable);
        CaughtKeepsUsage(r, AgentFailed);
        CaughtKeepsUsage(r, UpstreamIncomplete);
        CaughtKeepsUsage(r, ResultSizeLimit);
    }
  }

  /** In every run the usage is what the last consumed usage or final frame carries, or none: while the run reads,
      the last such frame received, and once it has ended, the last one of those consumed; a run with a final frame has
      that frame's usage. */
  lemma {:induction false} UsageComesFromFrames(cfg: Config, acts: seq<Act>)
    ensures UsageIsCarried(cfg, Exec(cfg, acts))
  {
    if acts == [] {
      assert Received(START) == [] && NoneFrom(cfg, [], 0);
      OfAll(cfg, [], NO_USAGE);
    } else {
      UsageComesFromFrames(cfg, acts[..|acts| - 1]);
      Reachable(cfg, acts[..|acts| - 1]);
      hide UsageIsCarried, Inv;
      NextUsage(cfg, Exec(cfg, acts[..|acts| - 1]), acts[|acts| - 1]);
    }
  }
}
