/** The upstream request budget of scripts/agent-sync/fireflies.ts: a run counts every HTTP attempt on disk
    before it makes it, so that caps per run and per UTC day survive a run killed at any point.

    The caps hold as long as no run is counted on a day whose counts the state file has forgotten, in
    particular while the clock does not go back to an earlier day; for any start it is proved that this is
    exactly what the caps need. The host reclaims a lock file only when no run holds it. */
module FirefliesBudget {
  import opened Optional

  const MAX_REQUESTS_PER_RUN := 100
  const MAX_REQUESTS_PER_DAY := 200
  const MAX_RUNS_PER_DAY := 4

  // ---- State --------------------------------------------------------------------------------------

  /** The counts in the state file. */
  datatype Counts = Counts(day: nat, runs: nat, requests: nat)

  /** Ready: the state is read. Running: the run is counted. Calling: a request is counted but not made. */
  datatype Phase = Ready | Running | Calling

  /** A live run: its state in memory, its budget and the attempts it counted. */
  datatype Run = Run(counts: Counts, budget: int, used: nat, phase: Phase)

  /** What a run that was counted has sent. */
  datatype Tally = Tally(day: nat, sent: nat)

  /** `history` records what really happened, whatever was persisted. */
  datatype State = State(file: Option<Counts>, locked: bool, run: Option<Run>, today: nat, history: seq<Tally>)

  datatype Act =
    | Start(day: nat)        // take the lock and read the state file
    | Leave                  // not connected, fresh, busy, capped or failed before the run is counted
    | Begin                  // count the run and persist it
    | Attempt(stored: bool)  // countingFetch: count a request and persist it; `stored` is whether the write succeeded
    | Call                   // the inner fetch
    | Save                   // any other write of the state file
    | Finish(stored: bool)   // the last write and the release of the lock
    | Kill                   // the process dies; its lock file stays
    | Reclaim                // the host removes an abandoned lock file

  const START: State := State(None, false, None, 0, [])

  function Min(a: int, b: int): int { if a < b then a else b }

  function Budget(c: Counts): int { Min(MAX_REQUESTS_PER_RUN, MAX_REQUESTS_PER_DAY - c.requests) }

  function ReadState(file: Option<Counts>, day: nat): Counts {
    if file.Some? && file.value.day == day then file.value else Counts(day, 0, 0)
  }

  function Bump(history: seq<Tally>): seq<Tally>
    requires history != []
  {
    var n := |history| - 1;
    history[n := history[n].(sent := history[n].sent + 1)]
  }

  function Next(s: State, a: Act): State {
    match a
    case Start(day) =>
      if s.locked || s.run.Some? then s
      else s.(locked := true, today := day, run := Some(Run(ReadState(s.file, day), 0, 0, Ready)))
    case Leave =>
      if s.run.Some? && s.run.value.phase.Ready? then s.(run := None, locked := false) else s
    case Begin =>
      if s.run.Some? && s.run.value.phase.Ready? then
        var c := s.run.value.counts;
        if c.runs >= MAX_RUNS_PER_DAY || Budget(c) <= 0 then s
        else
          var counted := c.(runs := c.runs + 1);
          s.(run := Some(Run(counted, Budget(c), 0, Running)), file := Some(counted),
            history := s.history + [Tally(c.day, 0)])
      else s
    case Attempt(stored) =>
      if s.run.Some? && s.run.value.phase.Running? && s.run.value.used < s.run.value.budget then
        var r := s.run.value;
        var counted := r.counts.(requests := r.counts.requests + 1);
        if stored then s.(run := Some(r.(counts := counted, used := r.used + 1, phase := Calling)),
          file := Some(counted))
        else s.(run := Some(r.(counts := counted, used := r.used + 1)))
      else s
    case Call =>
      if s.run.Some? && s.run.value.phase.Calling?
        && s.history != [] then s.(run := Some(s.run.value.(phase := Running)), history := Bump(s.history))
      else s
    case Save =>
      if s.run.Some? && s.run.value.phase.Running? then s.(file := Some(s.run.value.counts)) else s
    case Finish(stored) =>
      if s.run.Some? && s.run.value.phase.Running? then
        s.(file := if stored then Some(s.run.value.counts) else s.file, run := None, locked := false)
      else s
    case Kill => s.(run := None)
    case Reclaim => if s.run.None? then s.(locked := false) else s
  }

  function Exec(acts: seq<Act>): State {
    if acts == [] then START else Next(Exec(acts[..|acts| - 1]), acts[|acts| - 1])
  }

  // ---- What was sent ------------------------------------------------------------------------------

  function SentOn(history: seq<Tally>, day: nat): nat {
    if history == [] then 0
    else SentOn(history[..|history| - 1], day) + if history[|history| - 1].day == day
      then history[|history| - 1].sent else 0
  }

  /** The runs of a day that were counted, and so could make requests. */
  function RunsOn(history: seq<Tally>, day: nat): nat {
    if history == [] then 0
    else RunsOn(history[..|history| - 1], day) + if history[|history| - 1].day == day then 1 else 0
  }

  lemma Appended(history: seq<Tally>, t: Tally, day: nat)
    ensures SentOn(history + [t], day) == SentOn(history, day) + if t.day == day then t.sent else 0
    ensures RunsOn(history + [t], day) == RunsOn(history, day) + if t.day == day then 1 else 0
  {
    assert (history + [t])[..|history|] == history;
  }

  lemma Bumped(history: seq<Tally>, day: nat)
    requires history != []
    ensures SentOn(Bump(history), day) == SentOn(history, day) + if history[|history| - 1].day == day then 1 else 0
    ensures RunsOn(Bump(history), day) == RunsOn(history, day)
  {
    assert Bump(history)[..|history| - 1] == history[..|history| - 1];
  }

  // ---- The invariant ------------------------------------------------------------------------------

  /** For the day of the state file, what was sent is persisted. */
  ghost predicate Persisted(s: State) {
    match s.file
    case None => s.history == []
    case Some(f) =>
      && f.runs <= MAX_RUNS_PER_DAY && f.requests <= MAX_REQUESTS_PER_DAY
      && RunsOn(s.history, f.day) <= f.runs
      && SentOn(s.history, f.day) + (if s.run.Some? && s.run.value.phase.Calling? then 1 else 0) <= f.requests
  }

  ghost predicate Capped(s: State) {
    && (forall d: nat :: SentOn(s.history, d) <= MAX_REQUESTS_PER_DAY && RunsOn(s.history, d) <= MAX_RUNS_PER_DAY)
    && forall i :: 0 <= i < |s.history| ==> s.history[i].sent <= MAX_REQUESTS_PER_RUN
  }

  /** The live run agrees with the file, and what it has counted stays within its budget. */
  ghost predicate RunOk(s: State) {
    s.run.Some? ==>
      var r := s.run.value;
      && s.locked && r.counts.day == s.today
      && (if r.phase.Ready? then r.counts == ReadState(s.file, s.today)
          else
            && s.file.Some? && s.file.value.day == s.today
            && s.file.value.runs == r.counts.runs && s.file.value.requests <= r.counts.requests
            && r.used <= r.budget <= MAX_REQUESTS_PER_RUN
            && r.counts.requests + (r.budget - r.used) <= MAX_REQUESTS_PER_DAY
            && s.history != [] && s.history[|s.history| - 1].day == s.today
            && s.history[|s.history| - 1].sent + (if r.phase.Calling? then 1 else 0) <= r.used)
  }

  ghost predicate Inv(s: State) { Persisted(s) && Capped(s) && RunOk(s) }

  /** The state file holds another day's counts, or none, although runs of this day were counted. */
  predicate Forgets(s: State, day: nat) { (s.file.None? || s.file.value.day != day) && RunsOn(s.history, day) > 0 }

  /** No run is counted on a forgotten day. */
  predicate Careful(s: State, a: Act) { a.Begin? && s.run.Some? && s.run.value.phase.Ready? ==> !Forgets(s, s.today) }

  lemma BeginKeeps(s: State)
    requires Inv(s) && Careful(s, Begin)
    ensures Inv(Next(s, Begin))
  {
    hide SentOn, RunsOn;
    var t := Next(s, Begin);
    if t != s {
      var tally := Tally(s.today, 0);
      forall d: nat
        ensures SentOn(t.history, d) == SentOn(s.history, d)
          && RunsOn(t.history, d) == RunsOn(s.history, d) + (if d == s.today then 1 else 0)
      {
        Appended(s.history, tally, d);
      }
      NoRunsNothingSent(s.history, s.today);
    }
  }

  /** Requests are made by counted runs only. */
  lemma {:induction false} NoRunsNothingSent(history: seq<Tally>, day: nat)
    ensures RunsOn(history, day) == 0 ==> SentOn(history, day) == 0
  {
    if history != [] { NoRunsNothingSent(history[..|history| - 1], day); }
  }

  lemma EmptyHistory(day: nat)
    ensures SentOn([], day) == 0 && RunsOn([], day) == 0
  {}

  lemma CallKeeps(s: State)
    requires Inv(s)
    ensures Inv(Next(s, Call))
  {
    hide SentOn, RunsOn;
    var t := Next(s, Call);
    if t != s {
      forall d: nat
        ensures SentOn(t.history, d) == SentOn(s.history, d) + (if d == s.today then 1 else 0)
          && RunsOn(t.history, d) == RunsOn(s.history, d)
      {
        Bumped(s.history, d);
      }
    }
  }

  lemma NextKeeps(s: State, a: Act)
    requires Inv(s) && Careful(s, a)
    ensures Inv(Next(s, a))
  {
    hide SentOn, RunsOn;
    match a {
      case Begin => BeginKeeps(s);
      case Call => CallKeeps(s);
      case _ =>
    }
  }

  predicate NothingForgotten(acts: seq<Act>) {
    acts == [] || (NothingForgotten(acts[..|acts| - 1]) && Careful(Exec(acts[..|acts| - 1]), acts[|acts| - 1]))
  }

  lemma {:induction false} Reachable(acts: seq<Act>)
    requires NothingForgotten(acts)
    ensures Inv(Exec(acts))
  {
    if acts == [] {
      forall d: nat ensures SentOn([], d) == 0 && RunsOn([], d) == 0 { EmptyHistory(d); }
    } else {
      Reachable(acts[..|acts| - 1]);
      NextKeeps(Exec(acts[..|acts| - 1]), acts[|acts| - 1]);
    }
  }

  // ---- Results ------------------------------------------------------------------------------------

  ghost predicate CapsHold(history: seq<Tally>, day: nat) {
    SentOn(history, day) <= MAX_REQUESTS_PER_DAY && RunsOn(history, day) <= MAX_RUNS_PER_DAY
  }

  /** Whatever runs are started, killed and resumed: at most 200 requests and 4 counted runs a day, and at
      most 100 requests a run, as long as no run is counted on a forgotten day. */
  lemma CapsSurviveKills(acts: seq<Act>, day: nat)
    requires NothingForgotten(acts)
    ensures var h := Exec(acts).history;
            && SentOn(h, day) <= 200 && RunsOn(h, day) <= 4 && CapsHold(h, day)
            && forall i :: 0 <= i < |h| ==> h[i].sent <= 100
  {
    Reachable(acts);
  }

  // ---- A clock that only goes forward -------------------------------------------------------------

  /** A start is on no earlier day than the start before it. */
  predicate OnTime(s: State, a: Act) { a.Start? ==> s.today <= a.day }

  predicate Forward(acts: seq<Act>) {
    acts == [] || (Forward(acts[..|acts| - 1]) && OnTime(Exec(acts[..|acts| - 1]), acts[|acts| - 1]))
  }

  /** No day after that of the state file has any runs. */
  ghost predicate LaterDaysEmpty(s: State) {
    s.file.Some? ==> s.file.value.day <= s.today && forall d: nat :: d > s.file.value.day ==> RunsOn(s.history, d) == 0
  }

  lemma ForwardStep(s: State, a: Act)
    requires Inv(s) && LaterDaysEmpty(s) && OnTime(s, a)
    ensures Careful(s, a) && LaterDaysEmpty(Next(s, a))
  {
    hide SentOn, RunsOn;
    EmptyHistory(s.today);
    if a.Begin? && Next(s, a) != s {
      forall d: nat ensures RunsOn(Next(s, a).history, d) == RunsOn(s.history, d) + (if d == s.today then 1 else 0) {
        Appended(s.history, Tally(s.today, 0), d);
      }
      forall d: nat | s.history == [] ensures RunsOn(s.history, d) == 0 { EmptyHistory(d); }
    }
    if a.Call? && Next(s, a) != s {
      forall d: nat ensures RunsOn(Next(s, a).history, d) == RunsOn(s.history, d) { Bumped(s.history, d); }
    }
  }

  /** While the days of the starts do not decrease, nothing is forgotten. */
  lemma {:induction false} ForwardForgetsNothing(acts: seq<Act>)
    requires Forward(acts)
    ensures NothingForgotten(acts) && LaterDaysEmpty(Exec(acts))
  {
    if acts != [] {
      var before, last := acts[..|acts| - 1], acts[|acts| - 1];
      ForwardForgetsNothing(before);
      Reachable(before);
      ForwardStep(Exec(before), last);
    }
  }

  /** At any moment the file accounts for every request made on its day, and, while the days do not decrease,
      no later day has any. */
  lemma FileAccountsForSent(acts: seq<Act>)
    requires NothingForgotten(acts)
    ensures var s := Exec(acts);
            && (s.file.None? ==> s.history == [])
            && (s.file.Some? ==> SentOn(s.history, s.file.value.day) <= s.file.value.requests)
            && (s.file.Some? && Forward(acts) ==> forall d: nat :: d > s.file.value.day ==> SentOn(s.history, d) == 0)
  {
    Reachable(acts);
    if Forward(acts) {
      ForwardForgetsNothing(acts);
      forall d: nat { NoRunsNothingSent(Exec(acts).history, d); }
    }
  }

  // ---- What the caps need -------------------------------------------------------------------------

  /** Every start is on this day. */
  predicate OnlyOn(acts: seq<Act>, day: nat) { forall i :: 0 <= i < |acts| && acts[i].Start? ==> acts[i].day == day }

  /** The day is remembered, and a live run is one of this day. */
  ghost predicate Remembered(s: State, day: nat) {
    !Forgets(s, day) && (s.run.Some? ==> s.today == day && s.run.value.counts.day == day)
  }

  lemma RememberedStep(s: State, a: Act, day: nat)
    requires Remembered(s, day) && (a.Start? ==> a.day == day)
    ensures Careful(s, a) && Remembered(Next(s, a), day)
  {
    hide SentOn, RunsOn;
    if a.Begin? { Appended(s.history, Tally(day, 0), day); }
    if a.Call? && s.history != [] { Bumped(s.history, day); }
  }

  lemma {:induction false} RememberedRun(acts: seq<Act>, more: seq<Act>, day: nat)
    requires NothingForgotten(acts) && Remembered(Exec(acts), day) && OnlyOn(more, day)
    ensures NothingForgotten(acts + more) && Remembered(Exec(acts + more), day)
    decreases |more|
  {
    if more == [] {
      assert acts + more == acts;
    } else {
      var before, last := more[..|more| - 1], more[|more| - 1];
      RememberedRun(acts, before, day);
      assert (acts + more)[..|acts + more| - 1] == acts + before;
      RememberedStep(Exec(acts + before), last, day);
    }
  }

  lemma OneMoreAct(acts: seq<Act>, a: Act)
    ensures Exec(acts + [a]) == Next(Exec(acts), a)
  {
    assert (acts + [a])[..|acts|] == acts;
  }

  /** The three steps of a run without requests, on a day that still has runs left. */
  lemma RunSteps(s: State, day: nat)
    requires !s.locked && s.run.None? && ReadState(s.file, day).runs < 4 && ReadState(s.file, day).requests == 0
    ensures var t := Next(Next(Next(s, Start(day)), Begin), Finish(true));
            && !t.locked && t.run.None? && t.history == s.history + [Tally(day, 0)]
            && t.file == Some(Counts(day, ReadState(s.file, day).runs + 1, 0))
  {
  }

  /** One whole run without requests, on a day that still has runs left. */
  lemma OneRun(acts: seq<Act>, day: nat) returns (more: seq<Act>)
    requires var s := Exec(acts);
        !s.locked && s.run.None? && ReadState(s.file, day).runs < 4 && ReadState(s.file, day).requests == 0
    ensures more == acts + [Start(day), Begin, Finish(true)]
    ensures var s, t := Exec(acts), Exec(more);
            && !t.locked && t.run.None? && t.history == s.history + [Tally(day, 0)]
            && t.file == Some(Counts(day, ReadState(s.file, day).runs + 1, 0))
  {
    hide Next, Exec;
    var started, begun := acts + [Start(day)], acts + [Start(day)] + [Begin];
    more := begun + [Finish(true)];
    RunSteps(Exec(acts), day);
    OneMoreAct(acts, Start(day));
    OneMoreAct(started, Begin);
    OneMoreAct(begun, Finish(true));
  }

  /** Four runs of a forgotten day, on top of at least one, break its cap. */
  lemma ForgottenDayOverruns(acts: seq<Act>, day: nat) returns (more: seq<Act>)
    requires var s := Exec(acts); !s.locked && s.run.None? && Forgets(s, day)
    ensures OnlyOn(more, day) && !CapsHold(Exec(acts + more).history, day)
  {
    hide Next, Exec, RunsOn, SentOn;
    var all := acts;
    more := [];
    assert acts + more == acts;
    for i := 0 to 4
      invariant all == acts + more && OnlyOn(more, day)
      invariant var s := Exec(all); !s.locked && s.run.None? && ReadState(s.file, day) == Counts(day, i, 0)
      invariant RunsOn(Exec(all).history, day) >= i + 1
    {
      Appended(Exec(all).history, Tally(day, 0), day);
      all := OneRun(all, day);
      more := more + [Start(day), Begin, Finish(true)];
      assert all == acts + more;
    }
  }

  /** For an idle runner, a start on a day is safe, in that no continuation by runs of that day can exceed its
      caps, exactly when the state file has not forgotten the day. */
  lemma StartIsSafeIff(acts: seq<Act>, day: nat)
    requires NothingForgotten(acts) && !Exec(acts).locked && Exec(acts).run.None?
    ensures (forall more :: OnlyOn(more, day) ==> CapsHold(Exec(acts + more).history, day)) <==>
      !Forgets(Exec(acts), day)
  {
    hide Exec, NothingForgotten, CapsHold, Forgets, OnlyOn;
    if Forgets(Exec(acts), day) {
      var more := ForgottenDayOverruns(acts, day);
    } else {
      forall more | OnlyOn(more, day) ensures CapsHold(Exec(acts + more).history, day) {
        RememberedRun(acts, more, day);
        CapsSurviveKills(acts + more, day);
      }
    }
  }

  /** With the clock set back from the second day to the first, a fifth run of the first day is counted:
      a start on another day forgets the counts of the day before. */
  lemma ClockSetBack() returns (acts: seq<Act>)
    ensures RunsOn(Exec(acts).history, 1) == 5 > MAX_RUNS_PER_DAY && !NothingForgotten(acts) && !Forward(acts)
  {
    hide Next, Exec, RunsOn, Forward, NothingForgotten;
    NothingDone();
    acts := [];
    var days := [1, 1, 1, 1, 2, 1];
    var history: seq<Tally> := [];
    for i := 0 to 6
      invariant var s := Exec(acts); !s.locked && s.run.None? && s.history == history
      invariant RunsOn(history, 1) == if i == 6 then 5 else if i == 5 then 4 else i
      invariant Exec(acts).file == if i == 0 then None else Some(Counts(days[i - 1], if i >= 5 then 1 else i, 0))
    {
      Appended(history, Tally(days[i], 0), 1);
      acts := OneRun(acts, days[i]);
      history := history + [Tally(days[i], 0)];
    }
    if Forward(acts) { ForwardForgetsNothing(acts); }
    if NothingForgotten(acts) { CapsSurviveKills(acts, 1); }
  }

  lemma NothingDone()
    ensures Exec([]) == START && RunsOn([], 1) == 0
  {}

  // ---- countingFetch ------------------------------------------------------------------------------

  datatype Answer = Limited | Answered | StoreFailed

  class CountingFetch {
    const budget: int
    var used: nat
    /** The requests persisted and the inner calls made through this fetch. */
    ghost var persisted: nat
    ghost var called: nat

    constructor (budget: int)
      ensures Valid() && this.budget == budget && used == 0 && called == 0 && persisted == 0
    {
      this.budget, used, persisted, called := budget, 0, 0, 0;
    }

    ghost predicate Valid()
      reads this
    {
      called <= persisted <= used && (used == 0 || used <= budget)
    }

    /** Past the budget nothing is called; otherwise the attempt is persisted before the inner call, which
        is not made when the write fails. */
    method Fetch(stored: bool) returns (answer: Answer)
      requires Valid()
      modifies this
      ensures Valid()
      ensures answer == if old(used) >= budget then Limited else if stored then Answered else StoreFailed
      ensures used == old(used) + if answer.Limited? then 0 else 1
      ensures called == old(called) + if answer.Answered? then 1 else 0
      ensures persisted == old(persisted) + if answer.Answered? then 1 else 0
    {
      if used >= budget { return Limited; }
      used := used + 1;
      if !stored { return StoreFailed; }
      persisted := persisted + 1;
      called := called + 1;
      return Answered;
    }
  }
}
