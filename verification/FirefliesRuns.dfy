/** What whole runs of scripts/agent-sync/fireflies.ts do to the state file, the lock and the requests really
    sent: run to the end, killed and reclaimed, capped, or with writes of the state file that fail. */
module FirefliesRuns {
  import opened FirefliesBudget
  import opened Optional

  /** The run makes `n` requests one after the other, each persisted before it is sent. */
  function Asking(s: State, n: nat): State {
    if n == 0 then s else Next(Next(Asking(s, n - 1), Attempt(true)), Call)
  }

  /** The write of the state file fails at the next `n` requests. */
  function Refused(s: State, n: nat): State { if n == 0 then s else Next(Refused(s, n - 1), Attempt(false)) }

  /** The runs and requests the state file holds for a day. */
  ghost predicate Holds(file: Option<Counts>, day: nat, runs: nat, requests: nat) {
    if file.Some? && file.value.day == day then file.value.runs == runs && file.value.requests == requests
    else runs == 0 && requests == 0
  }

  /** How many of `n` requests a run may send on a day that has seen `requests`. */
  ghost predicate Allows(requests: nat, n: nat, sent: nat) {
    && sent <= n && sent <= 100 && requests + sent <= 200
    && (sent == n || sent == 100 || requests + sent == 200)
  }

  // ---- The requests of one run ----------------------------------------------------------------------

  /** The state after a run has sent some of its requests. */
  ghost predicate Sent(s: State, before: State, day: nat, runs: nat, requests: nat, sent: nat, budget: nat) {
    && s.file == Some(Counts(day, runs + 1, requests + sent))
    && s.locked && s.today == day
    && s.run == Some(Run(Counts(day, runs + 1, requests + sent), budget, sent, Running))
    && s.history == before.history + [Tally(day, sent)]
  }

  lemma OneRequest(s: State, before: State, day: nat, runs: nat, requests: nat, sent: nat, budget: nat)
    requires Sent(s, before, day, runs, requests, sent, budget)
    ensures var t := Next(Next(s, Attempt(true)), Call);
            if sent < budget then Sent(t, before, day, runs, requests, sent + 1, budget) else t == s
  {
    var t := Next(Next(s, Attempt(true)), Call);
    if sent < budget {
      assert t.history == before.history + [Tally(day, sent + 1)];
    }
  }

  lemma {:induction false} Requests(s: State, before: State, day: nat, runs: nat, requests: nat, n: nat, budget: nat)
    requires Sent(s, before, day, runs, requests, 0, budget)
    ensures Sent(Asking(s, n), before, day, runs, requests, if n < budget then n else budget, budget)
  {
    if n > 0 {
      Requests(s, before, day, runs, requests, n - 1, budget);
      OneRequest(Asking(s, n - 1), before, day, runs, requests, if n - 1 < budget then n - 1 else budget, budget);
    }
  }

  /** Taking the lock and counting the run: a day with 4 runs or 200 requests is left as it is. */
  lemma Counting(s: State, day: nat, runs: nat, requests: nat)
    requires !s.locked && s.run.None? && Holds(s.file, day, runs, requests)
    ensures var t := Next(Next(s, Start(day)), Begin);
            if runs >= 4 || requests >= 200 then
              t == s.(locked := true, today := day, run := Some(Run(Counts(day, runs, requests), 0, 0, Ready)))
            else Sent(t, s, day, runs, requests, 0, if requests > 100 then 200 - requests else 100)
  {}

  // ---- Whole runs -----------------------------------------------------------------------------------

  /** The run takes the free lock, is counted, and makes `n` requests. */
  function AfterRequests(s: State, day: nat, n: nat): State { Asking(Next(Next(s, Start(day)), Begin), n) }

  lemma Allowed(s: State, day: nat, runs: nat, requests: nat, n: nat, sent: nat)
    requires !s.locked && s.run.None? && Holds(s.file, day, runs, requests) && Allows(requests, n, sent)
    requires runs < 4 && requests < 200
    ensures Sent(AfterRequests(s, day, n), s, day, runs, requests, sent, if requests > 100 then 200 - requests else 100)
  {
    hide Next, Holds, Sent;
    Counting(s, day, runs, requests);
    Requests(Next(Next(s, Start(day)), Begin), s, day, runs, requests, n,
      if requests > 100 then 200 - requests else 100);
  }

  /** A run that is not disturbed sends as many of its `n` requests as the caps leave, counts itself and each of
      them in the state file, and gives the lock back. Saving on the way makes no difference. */
  lemma RunToTheEnd(s: State, day: nat, runs: nat, requests: nat, n: nat, sent: nat)
    requires !s.locked && s.run.None? && Holds(s.file, day, runs, requests) && Allows(requests, n, sent)
    requires runs < 4 && requests < 200
    ensures Next(AfterRequests(s, day, n), Finish(true)) ==
            State(Some(Counts(day, runs + 1, requests + sent)), false, None, day, s.history + [Tally(day, sent)])
    ensures Next(AfterRequests(s, day, n), Save) == AfterRequests(s, day, n)
    ensures Next(AfterRequests(s, day, n), Finish(false)) == Next(AfterRequests(s, day, n), Finish(true))
  {
    hide Holds, AfterRequests;
    Allowed(s, day, runs, requests, n, sent);
  }

  /** On a day with 4 counted runs or 200 counted requests nothing is counted or sent, and the run only takes the
      lock and gives it back. */
  lemma CappedDay(s: State, day: nat, runs: nat, requests: nat, n: nat)
    requires !s.locked && s.run.None? && Holds(s.file, day, runs, requests) && (runs >= 4 || requests >= 200)
    ensures Next(AfterRequests(s, day, n), Leave) == s.(today := day)
  {
    Counting(s, day, runs, requests);
    NoRequests(Next(Next(s, Start(day)), Begin), n);
  }

  lemma {:induction false} NoRequests(s: State, n: nat)
    requires s.run.None? || s.run.value.phase.Ready?
    ensures Asking(s, n) == s
  {
    if n > 0 { NoRequests(s, n - 1); }
  }

  /** A run killed after its requests, once the host has removed its lock file, leaves exactly what it would have
      left by finishing; until then its lock keeps every other run out. */
  lemma KilledRun(s: State, day: nat, runs: nat, requests: nat, n: nat, sent: nat, other: nat)
    requires !s.locked && s.run.None? && Holds(s.file, day, runs, requests) && Allows(requests, n, sent)
    requires runs < 4 && requests < 200
    ensures var killed := Next(AfterRequests(s, day, n), Kill);
            && Next(killed, Start(other)) == killed
            && Next(killed, Reclaim) == Next(AfterRequests(s, day, n), Finish(true))
  {
    hide Holds, AfterRequests;
    Allowed(s, day, runs, requests, n, sent);
  }

  /** Killed between the write and the request, a run has counted one request more than it sent, within its
      caps. */
  lemma KilledBeforeTheCall(s: State, day: nat, runs: nat, requests: nat, n: nat)
    requires !s.locked && s.run.None? && Holds(s.file, day, runs, requests) && n < 100 && requests + n < 200
    requires runs < 4
    ensures Next(Next(Next(AfterRequests(s, day, n), Attempt(true)), Kill), Reclaim) ==
            State(Some(Counts(day, runs + 1, requests + n + 1)), false, None, day, s.history + [Tally(day, n)])
  {
    hide Holds, AfterRequests;
    Allowed(s, day, runs, requests, n, n);
  }

  /** A request whose write fails is not sent and does not change the file, but is counted by the run, which
      persists it with its next write. */
  lemma FailedWrites(s: State, day: nat, runs: nat, requests: nat, n: nat, failed: nat)
    requires !s.locked && s.run.None? && Holds(s.file, day, runs, requests)
    requires n + failed <= 100 && requests + n + failed <= 200 && requests < 200 && runs < 4
    ensures var t := Refused(AfterRequests(s, day, n), failed);
            && t.file == Some(Counts(day, runs + 1, requests + n)) && t.history == s.history + [Tally(day, n)]
            && Next(t, Finish(false)).file == t.file && !Next(t, Finish(false)).locked
            && Next(t, Finish(false)).run.None?
            && Next(t, Save).file == Some(Counts(day, runs + 1, requests + n + failed))
            && Next(t, Finish(true)).file == Some(Counts(day, runs + 1, requests + n + failed))
            && Next(t, Save).history == t.history && Next(t, Finish(true)).history == t.history
  {
    hide Holds, AfterRequests;
    Allowed(s, day, runs, requests, n, n);
    RefusedRequests(AfterRequests(s, day, n), failed);
  }

  lemma {:induction false} RefusedRequests(s: State, n: nat)
    requires s.run.Some? && s.run.value.phase.Running? && s.run.value.used + n <= s.run.value.budget
    ensures var r := s.run.value;
            Refused(s, n) == s.(run := Some(r.(counts := r.counts.(requests := r.counts.requests + n),
              used := r.used + n)))
  {
    if n > 0 { RefusedRequests(s, n - 1); }
  }

  // ---- What may happen when -------------------------------------------------------------------------

  /** Without a live run only a start, when the lock is free, and the removal of the lock file do anything; with
      one, no start and no removal do, so there is one run at a time. A run that was not counted can only be
      counted, leave or die. A counted request is made before anything else is. */
  lemma OneRunAtATime(s: State, a: Act)
    ensures s.run.None? && !a.Start? && !a.Reclaim? ==> Next(s, a) == s
    ensures s.run.None? && a.Start? ==> (Next(s, a).run.Some? <==> !s.locked)
    ensures s.run.None? && a.Reclaim? ==> Next(s, a) == s.(locked := false)
    ensures s.run.Some? && (a.Start? || a.Reclaim?) ==> Next(s, a) == s
    ensures s.run.Some? && s.run.value.phase.Ready? && !a.Begin? && !a.Leave? && !a.Kill? ==> Next(s, a) == s
    ensures s.run.Some? && s.run.value.phase.Calling? && !a.Call? && !a.Kill? ==> Next(s, a) == s
    ensures s.run.Some? && s.run.value.phase.Running? && (a.Leave? || a.Begin? || a.Call?) ==> Next(s, a) == s
    ensures s.run.Some? && a.Kill? ==> Next(s, a) == s.(run := None)
  {}

  lemma RunnersStartIdle()
    ensures var s := Exec([]); !s.locked && s.run.None? && s.file.None? && s.history == []
  {}
}
