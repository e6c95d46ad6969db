/** runEvaluationMatrix of backend/scripts/meeting-eval.ts: sequential paced turns under a request budget,
    stopping at the first rate limit or budget denial. */
module EvalRun {
  import opened Optional
  import opened Pigeonhole
  import opened EvalPlan

  datatype Stop = InventoryRefused | MissingModels | RateLimited | BudgetExhausted

  /** A recorded turn, when it started and finished, the model requests it was admitted, and whether the
      provider rate-limited it or the budget denied one of its requests. */
  datatype Run = Run(turn: Turn, started: nat, finished: nat, modelCalls: nat, limited: bool, exhausted: bool)

  /** How the provider and the clock treat the n-th turn: the requests the turn makes, which of its admitted
      requests is answered 429, how long it takes and how far each timer wakes the clock. */
  datatype Environment = Environment(attempts: nat -> nat, limitedAt: nat -> Option<nat>, takes: nat -> nat,
      wakes: nat -> nat)

  datatype Outcome = Rejected | Stopped | Completed

  function Turns(runs: seq<Run>): (r: seq<Turn>)
    ensures |r| == |runs| && forall i :: 0 <= i < |r| ==> r[i] == runs[i].turn
  {
    seq(|runs|, i requires 0 <= i < |runs| => runs[i].turn)
  }

  function Requests(runs: seq<Run>): nat {
    if runs == [] then 0 else Requests(runs[..|runs| - 1]) + runs[|runs| - 1].modelCalls
  }

  predicate Stops(run: Run) { run.limited || run.exhausted }

  /** Consecutive turns are apart by the idle minimum. */
  ghost predicate Paced(runs: seq<Run>, minIdle: nat) {
    && (forall i :: 0 <= i < |runs| ==> runs[i].started <= runs[i].finished)
    && forall i :: 0 < i < |runs| ==> runs[i - 1].finished + minIdle <= runs[i].started
  }

  /** Nothing was recorded after a turn that stops the matrix. */
  ghost predicate StopsAtEnd(runs: seq<Run>) { forall i :: 0 <= i < |runs| - 1 ==> !Stops(runs[i]) }

  ghost predicate Clean(runs: seq<Run>) { forall i :: 0 <= i < |runs| ==> !Stops(runs[i]) }

  /** The reduction over all recorded runs. */
  method CountRequests(runs: seq<Run>) returns (total: nat)
    ensures total == Requests(runs)
  {
    total := 0;
    for i := 0 to |runs|
      invariant total == Requests(runs[..i])
    {
      total := total + runs[i].modelCalls;
      assert runs[..i + 1][..i] == runs[..i];
    }
    assert runs[..|runs|] == runs;
  }

  lemma RecordKeeps(runs: seq<Run>, run: Run, minIdle: nat)
    requires Paced(runs, minIdle) && Clean(runs) && run.started <= run.finished
    requires runs != [] ==> runs[|runs| - 1].finished + minIdle <= run.started
    ensures Paced(runs + [run], minIdle) && StopsAtEnd(runs + [run]) && (!Stops(run) ==> Clean(runs + [run]))
  {}

  lemma RequestsAppend(runs: seq<Run>, run: Run)
    ensures Requests(runs + [run]) == Requests(runs) + run.modelCalls
  {
    assert (runs + [run])[..|runs|] == runs;
  }

  class Evaluation {
    const scenarios: seq<Scenario>
    const offered: seq<Model>
    const repeats: nat
    const minIdle: nat
    const maxRequests: nat
    const timeout: nat
    const env: Environment
    var runs: seq<Run>
    var realModelRequests: nat
    var inventoryRequests: nat
    var inventory: seq<Model>
    var blocked: seq<Stop>
    var clock: nat
    var lastTurnFinishedAt: Option<nat>

    constructor (scenarios: seq<Scenario>, offered: seq<Model>, repeats: nat, minIdle: nat, maxRequests: nat,
        timeout: nat, env: Environment)
      ensures Valid() && runs == [] && blocked == [] && inventoryRequests == 0
      ensures this.scenarios == scenarios && this.offered == offered && this.repeats == repeats && this.env == env
      ensures this.minIdle == minIdle && this.maxRequests == maxRequests && this.timeout == timeout
    {
      this.scenarios, this.offered, this.repeats, this.minIdle := scenarios, offered, repeats, minIdle;
      this.maxRequests, this.timeout, this.env := maxRequests, timeout, env;
      runs, realModelRequests, inventoryRequests, inventory := [], 0, 0, [];
      blocked, clock, lastTurnFinishedAt := [], 0, None;
    }

    /** What holds at every turn boundary. */
    ghost predicate Valid()
      reads this
    {
      && realModelRequests == Requests(runs) && realModelRequests <= maxRequests
      && Paced(runs, minIdle) && StopsAtEnd(runs)
      && lastTurnFinishedAt == (if runs == [] then None else Some(runs[|runs| - 1].finished))
      && (lastTurnFinishedAt.Some? ==> lastTurnFinishedAt.value <= clock)
    }

    predicate OptionsAllowed() {
      && 1 <= minIdle <= 3600000 && 1 <= maxRequests <= 100000
      && 1 <= timeout <= 2147483647 && 1 <= repeats <= 1000
    }

    /** One turn's model requests: each is admitted against the budget, none is made after a 429. */
    method RunScenario(turn: Turn) returns (run: Run)
      requires realModelRequests <= maxRequests
      modifies this`realModelRequests, this`clock
      ensures realModelRequests == old(realModelRequests) + run.modelCalls <= maxRequests
      ensures run.turn == turn && run.started == old(clock) <= run.finished == clock
      ensures run.limited <==> env.limitedAt(|runs|).Some? && run.modelCalls == env.limitedAt(|runs|).value + 1
      ensures run.exhausted <==> !run.limited && run.modelCalls < env.attempts(|runs|)
      ensures run.exhausted ==> realModelRequests == maxRequests
      ensures run.modelCalls <= env.attempts(|runs|)
    {
      var started, calls, limited, exhausted := clock, 0, false, false;
      var attempts, limitedAt := env.attempts(|runs|), env.limitedAt(|runs|);
      for attempt := 0 to attempts
        invariant calls <= attempt && realModelRequests == old(realModelRequests) + calls <= maxRequests
        invariant limited <==> limitedAt.Some? && calls == limitedAt.value + 1
        invariant limitedAt.Some? ==> calls <= limitedAt.value + 1
        invariant exhausted <==> !limited && calls < attempt
        invariant exhausted ==> realModelRequests == maxRequests
        invariant clock == old(clock)
      {
        if limited { continue; }
        if realModelRequests >= maxRequests {
          exhausted := true;
          continue;
        }
        realModelRequests := realModelRequests + 1;
        limited := limitedAt == Some(calls);
        calls := calls + 1;
      }
      clock := clock + env.takes(|runs|);
      run := Run(turn, started, clock, calls, limited, exhausted);
    }

    /** Refuses a turn when the budget is spent; otherwise waits until the idle minimum has passed and runs
        it. Timers may wake early, so the wait is a loop. */
    method PacedTurn(turn: Turn) returns (run: Option<Run>)
      requires Valid() && Clean(runs)
      modifies this`realModelRequests, this`clock, this`blocked, this`lastTurnFinishedAt
      ensures run.None? ==> Valid() && blocked == old(blocked) + [BudgetExhausted] && realModelRequests == maxRequests
      ensures run.None? <==> old(realModelRequests) >= maxRequests
      ensures run.Some? && run.value.exhausted ==> realModelRequests == maxRequests
      ensures run.Some? ==>
        && blocked == old(blocked) && run.value.turn == turn
        && realModelRequests == Requests(runs) + run.value.modelCalls <= maxRequests
        && run.value.started <= run.value.finished == clock && lastTurnFinishedAt == Some(clock)
        && (runs != [] ==> runs[|runs| - 1].finished + minIdle <= run.value.started)
    {
      if realModelRequests >= maxRequests {
        blocked := blocked + [BudgetExhausted];
        return None;
      }
      if lastTurnFinishedAt.Some? {
        var target := lastTurnFinishedAt.value + minIdle;
        while clock < target
          modifies this`clock
          invariant old(clock) <= clock
          decreases target - clock
        {
          clock := clock + 1 + env.wakes(clock);
        }
      }
      var done := RunScenario(turn);
      lastTurnFinishedAt := Some(clock);
      run := Some(done);
    }

    /** Records a finished turn and counts the requests of all recorded turns anew. */
    method Record(run: Run) returns (stop: bool)
      requires Paced(runs, minIdle) && Clean(runs)
        && realModelRequests == Requests(runs) + run.modelCalls <= maxRequests
      requires run.started <= run.finished <= clock && lastTurnFinishedAt == Some(run.finished)
      requires runs != [] ==> runs[|runs| - 1].finished + minIdle <= run.started
      modifies this`runs, this`realModelRequests, this`blocked
      ensures Valid() && runs == old(runs) + [run] && (stop <==> Stops(run))
      ensures realModelRequests == old(realModelRequests)
      ensures blocked == old(blocked) + if run.limited then [RateLimited]
          else if run.exhausted then [BudgetExhausted] else []
    {
      hide Requests;
      RecordKeeps(runs, run, minIdle);
      RequestsAppend(runs, run);
      runs := runs + [run];
      realModelRequests := CountRequests(runs);
      if run.limited {
        blocked := blocked + [RateLimited];
      } else if run.exhausted {
        blocked := blocked + [BudgetExhausted];
      }
      stop := run.limited || run.exhausted;
    }

    /** Why a matrix stops: its budget is spent, or its last turn was rate-limited; the reason is the last one
        listed. */
    ghost predicate Halted()
      reads this
    {
      && blocked != []
      && match blocked[|blocked| - 1]
         case RateLimited => runs != [] && runs[|runs| - 1].limited
         case BudgetExhausted => realModelRequests == maxRequests
         case _ => false
    }

    /** A paced turn and its record; false when the matrix stops. */
    method TakeTurn(turn: Turn) returns (go: bool)
      requires Valid() && Clean(runs)
      modifies this`runs, this`realModelRequests, this`clock, this`blocked, this`lastTurnFinishedAt
      ensures Valid()
      ensures go ==> Clean(runs) && Turns(runs) == Turns(old(runs)) + [turn] && blocked == old(blocked)
      ensures !go ==> (Turns(runs) == Turns(old(runs)) || Turns(runs) == Turns(old(runs)) + [turn])
      ensures !go ==> Halted() && |blocked| == old(|blocked|) + 1
    {
      var run := PacedTurn(turn);
      if run.None? { return false; }
      var stop := Record(run.value);
      assert Turns(runs) == Turns(old(runs)) + [turn];
      return !stop;
    }

    /** The turns of one cell of the matrix: a general scenario's baseline runs before the controller's turn
        on even repeats and after it on odd ones. */
    method TakeCell(m: Model, s: Scenario, v: nat, r: nat) returns (go: bool)
      requires Valid() && Clean(runs)
      modifies this`runs, this`realModelRequests, this`clock, this`blocked, this`lastTurnFinishedAt
      ensures Valid()
      ensures go ==> Clean(runs) && Turns(runs) == Turns(old(runs)) + Cell(m, s, v, r) && blocked == old(blocked)
      ensures !go ==> Turns(runs) <= Turns(old(runs)) + Cell(m, s, v, r) && |blocked| == old(|blocked|) + 1 && Halted()
    {
      var controller, baseline := Turn(m, s.id, v, r, Controller), Turn(m, s.id, v, r, Baseline);
      ghost var before := Turns(runs);
      if s.general && r % 2 == 0 {
        go := TakeTurn(baseline);
        if !go { return; }
        assert before + [baseline] + [controller] == before + Cell(m, s, v, r);
      }
      go := TakeTurn(controller);
      if !go { return; }
      if s.general && r % 2 != 0 {
        go := TakeTurn(baseline);
        assert before + [controller] + [baseline] == before + Cell(m, s, v, r);
      }
    }

    /** The loop over repeats. */
    method RunRepeats(m: Model, s: Scenario, v: nat) returns (go: bool)
      requires Valid() && Clean(runs)
      modifies this`runs, this`realModelRequests, this`clock, this`blocked, this`lastTurnFinishedAt
      ensures Valid()
      ensures go ==>
        Clean(runs) && Turns(runs) == Turns(old(runs)) + UpToRepeat(m, s, v, repeats) && blocked == old(blocked)
      ensures !go ==>
        Turns(runs) <= Turns(old(runs)) + UpToRepeat(m, s, v, repeats) && |blocked| == old(|blocked|) + 1 && Halted()
    {
      hide Paced, StopsAtEnd, Requests, Clean, Turns, Cell;
      ghost var before := Turns(runs);
      for k := 0 to repeats
        invariant Valid() && Clean(runs) && blocked == old(blocked)
        invariant Turns(runs) == before + UpToRepeat(m, s, v, k)
      {
        ghost var block := Cell(m, s, v, k);
        assert before + UpToRepeat(m, s, v, k) + block == before + UpToRepeat(m, s, v, k + 1);
        go := TakeCell(m, s, v, k);
        if !go {
          RepeatsGrow(m, s, v, k + 1, repeats);
          PrefixAppend(Turns(runs), before, UpToRepeat(m, s, v, k + 1), UpToRepeat(m, s, v, repeats));
          return;
        }
      }
      go := true;
    }

    /** The loop over variants. */
    method RunVariants(m: Model, s: Scenario) returns (go: bool)
      requires Valid() && Clean(runs)
      modifies this`runs, this`realModelRequests, this`clock, this`blocked, this`lastTurnFinishedAt
      ensures Valid()
      ensures go ==>
        Clean(runs) && Turns(runs) == Turns(old(runs)) + UpToVariant(m, s, VARIANTS, repeats) && blocked == old(blocked)
      ensures !go ==>
        Turns(runs) <= Turns(old(runs)) + UpToVariant(m, s, VARIANTS, repeats) && |blocked| == old(|blocked|) + 1
          && Halted()
    {
      hide Paced, StopsAtEnd, Requests, Clean, Turns, UpToRepeat;
      ghost var before := Turns(runs);
      for k := 0 to VARIANTS
        invariant Valid() && Clean(runs) && blocked == old(blocked)
        invariant Turns(runs) == before + UpToVariant(m, s, k, repeats)
      {
        ghost var block := UpToRepeat(m, s, k, repeats);
        assert before + UpToVariant(m, s, k, repeats) + block == before + UpToVariant(m, s, k + 1, repeats);
        go := RunRepeats(m, s, k);
        if !go {
          VariantsGrow(m, s, k + 1, VARIANTS, repeats);
          PrefixAppend(Turns(runs), before, UpToVariant(m, s, k + 1, repeats), UpToVariant(m, s, VARIANTS, repeats));
          return;
        }
      }
      go := true;
    }

    /** The loop over scenarios. */
    method RunScenarios(m: Model) returns (go: bool)
      requires Valid() && Clean(runs)
      modifies this`runs, this`realModelRequests, this`clock, this`blocked, this`lastTurnFinishedAt
      ensures Valid()
      ensures go ==>
        Clean(runs) && Turns(runs) == Turns(old(runs)) + UpToScenario(m, scenarios, |scenarios|, repeats)
        && blocked == old(blocked)
      ensures !go ==>
        Turns(runs) <= Turns(old(runs)) + UpToScenario(m, scenarios, |scenarios|, repeats)
        && |blocked| == old(|blocked|) + 1 && Halted()
    {
      hide Paced, StopsAtEnd, Requests, Clean, Turns, UpToVariant;
      ghost var before := Turns(runs);
      for k := 0 to |scenarios|
        invariant Valid() && Clean(runs) && blocked == old(blocked)
        invariant Turns(runs) == before + UpToScenario(m, scenarios, k, repeats)
      {
        ghost var block := UpToVariant(m, scenarios[k], VARIANTS, repeats);
        assert before + UpToScenario(m, scenarios, k, repeats) + block
          == before + UpToScenario(m, scenarios, k + 1, repeats);
        go := RunVariants(m, scenarios[k]);
        if !go {
          ScenariosGrow(m, scenarios, k + 1, |scenarios|, repeats);
          PrefixAppend(Turns(runs), before, UpToScenario(m, scenarios, k + 1, repeats),
            UpToScenario(m, scenarios, |scenarios|, repeats));
          return;
        }
      }
      go := true;
    }

    /** The loop over the models found. */
    method RunModels(models: seq<Model>) returns (go: bool)
      requires Valid() && Clean(runs)
      modifies this`runs, this`realModelRequests, this`clock, this`blocked, this`lastTurnFinishedAt
      ensures Valid()
      ensures go ==>
        Clean(runs) && Turns(runs) == Turns(old(runs)) + UpToModel(models, |models|, scenarios, repeats)
        && blocked == old(blocked)
      ensures !go ==>
        Turns(runs) <= Turns(old(runs)) + UpToModel(models, |models|, scenarios, repeats)
        && |blocked| == old(|blocked|) + 1 && Halted()
    {
      hide Paced, StopsAtEnd, Requests, Clean, Turns, UpToScenario, UpToModel;
      ghost var before := Turns(runs);
      NoModels(models, before, scenarios, repeats);
      for k := 0 to |models|
        invariant Valid() && Clean(runs) && blocked == old(blocked)
        invariant Turns(runs) == before + UpToModel(models, k, scenarios, repeats)
      {
        OneMoreModel(models, k, before, scenarios, repeats);
        go := RunScenarios(models[k]);
        if !go {
          ModelsGrow(models, k + 1, |models|, scenarios, repeats);
          PrefixAppend(Turns(runs), before, UpToModel(models, k + 1, scenarios, repeats),
            UpToModel(models, |models|, scenarios, repeats));
          return;
        }
      }
      go := true;
    }

    /** The evaluation. `catalog` is the provider's list of model ids, None when the request fails.

        Whatever happens, the recorded turns are a prefix of the plan over the models found; a completed
        matrix recorded the whole plan, and a stopped one has nothing after the turn that stopped it. */
    method RunMatrix(catalog: Option<seq<Model>>) returns (outcome: Outcome)
      requires Valid()
      modifies this
      ensures Valid()
      ensures outcome == Rejected <==>
        || !(1 <= minIdle <= 3600000 && 1 <= maxRequests <= 100000)
        || !(1 <= timeout <= 2147483647 && 1 <= repeats <= 1000)
        || old(runs != [] || realModelRequests != 0 || inventoryRequests != 0 || blocked != [])
      ensures outcome == Rejected ==> unchanged(this)
      ensures outcome != Rejected ==> inventoryRequests == 1
      ensures outcome != Rejected && catalog.None? ==> outcome == Stopped && runs == [] && blocked == [InventoryRefused]
      ensures outcome != Rejected && catalog.Some? ==> inventory == Offered(catalog.value, offered)
      ensures outcome == Stopped && catalog.Some? ==> Halted()
      ensures outcome != Rejected ==> Turns(runs) <= Plan(inventory, scenarios, repeats) || catalog.None?
      ensures outcome == Completed ==>
        && Clean(runs) && Turns(runs) == Plan(inventory, scenarios, repeats)
        && blocked == if forall m :: m in offered ==> m in inventory then [] else [MissingModels]
    {
      if !OptionsAllowed() || |runs| != 0 || realModelRequests != 0 || inventoryRequests != 0 || |blocked| != 0 {
        return Rejected;
      }
      assert Clean(runs) && Turns(runs) == [];
      hide Paced, StopsAtEnd, Requests, Clean, Turns, Offered, UpToModel, OptionsAllowed;
      inventoryRequests := 1;
      if catalog.None? {
        blocked := blocked + [InventoryRefused];
        return Stopped;
      }
      inventory := Offered(catalog.value, offered);
      if !(forall m :: m in offered ==> m in inventory) { blocked := blocked + [MissingModels]; }
      assert Turns(runs) == [];
      var go := RunModels(inventory);
      assert Plan(inventory, scenarios, repeats) == UpToModel(inventory, |inventory|, scenarios, repeats);
      outcome := if go then Completed else Stopped;
    }
  }

  /** The catalog's ids that are offered, in catalog order, repeated where the catalog repeats them. */
  function Offered(catalog: seq<Model>, offered: seq<Model>): seq<Model> {
    if catalog == [] then []
    else Offered(catalog[..|catalog| - 1], offered) + if catalog[|catalog| - 1] in offered
      then [catalog[|catalog| - 1]] else []
  }

  // ---- When a completed matrix is a release matrix ------------------------------------------------

  lemma {:induction false} OfferedCounts(catalog: seq<Model>, offered: seq<Model>, m: Model)
    ensures multiset(Offered(catalog, offered))[m] == if m in offered then multiset(catalog)[m] else 0
    decreases |catalog|
  {
    if catalog != [] {
      var n := |catalog| - 1;
      OfferedCounts(catalog[..n], offered, m);
      assert catalog == catalog[..n] + [catalog[n]];
    }
  }

  lemma {:induction false} DistinctCounts<T>(s: seq<T>)
    ensures Distinct(s) <==> forall x :: x in s ==> multiset(s)[x] == 1
    decreases |s|
  {
    if s != [] {
      var rest, last := s[..|s| - 1], s[|s| - 1];
      DistinctCounts(rest);
      assert s == rest + [last];
      assert multiset(s) == multiset(rest) + multiset{last};
      if last in rest {
        var i :| 0 <= i < |rest| && rest[i] == last;
        assert s[i] == s[|s| - 1] && last in multiset(rest) && last in s;
        assert multiset(s)[last] == multiset(rest)[last] + 1 != 1;
      } else {
        assert last !in multiset(rest) && multiset(s)[last] == 1;
        assert Distinct(s) <==> Distinct(rest);
        forall x | x in rest ensures multiset(s)[x] == multiset(rest)[x] && x in s {}
        assert forall x :: x in s ==> x in rest || x == last;
      }
    }
  }

  /** The models found cover the offered ones once each exactly when the catalog lists each offered model
      once. */
  lemma CoversIffListedOnce(catalog: seq<Model>, offered: seq<Model>)
    ensures Covers(Offered(catalog, offered), offered) <==> forall m :: m in offered ==> multiset(catalog)[m] == 1
  {
    var found := Offered(catalog, offered);
    DistinctCounts(found);
    forall m ensures multiset(found)[m] == if m in offered then multiset(catalog)[m] else 0 {
      OfferedCounts(catalog, offered, m);
    }
    forall m ensures m in found <==> multiset(found)[m] > 0 { assert m in found <==> m in multiset(found); }
  }

  /** The report of a matrix that ran over all scenarios to its end is a complete release matrix exactly
      when there are at least two repeats and the provider's catalog lists each offered model once. */
  lemma CompletedIsReleaseMatrix(all: seq<Scenario>, offered: seq<Model>, catalog: seq<Model>, repeats: nat,
      runs: seq<Run>, report: Report)
    requires DistinctIds(all) && all != [] && Distinct(offered) && offered != [] && repeats >= 1
    requires Turns(runs) == Plan(Offered(catalog, offered), all, repeats)
    requires report.scenarioCount == |all| && (forall s :: s in all ==> s.id in report.selected)
    requires report.planned == |all| * VARIANTS * repeats * |offered| && report.repeats == repeats
    requires report.offered == offered && report.turns == Turns(runs)
    ensures IsComplete(all, report) <==> repeats >= 2 && forall m :: m in offered ==> multiset(catalog)[m] == 1
  {
    hide Covers, IsComplete, Plan, Turns, DistinctIds, Offered;
    var found := Offered(catalog, offered);
    forall m | m in found ensures m in offered {
      OfferedCounts(catalog, offered, m);
      assert m in multiset(found);
    }
    CoversIffListedOnce(catalog, offered);
    CompleteIffInventoryCovers(all, report, found);
  }

  /** Such a run: a catalog that lists the one offered model twice lets the matrix run to its end, every turn
      of the plan recorded, and the matrix is not complete, since every run of the model happened twice. */
  lemma ListedTwiceIsIncomplete(s: Scenario) returns (runs: seq<Run>, report: Report)
    ensures Turns(runs) == Plan(Offered(["m", "m"], ["m"]), [s], 2) && Clean(runs)
    ensures report == Report(1, [s.id], 1 * VARIANTS * 2 * 1, 2, ["m"], Turns(runs))
    ensures !IsComplete([s], report) && |Controllers(report.turns)| == 2 * report.planned
  {
    var catalog, offered := ["m", "m"], ["m"];
    var plan := Plan(Offered(catalog, offered), [s], 2);
    runs := seq(|plan|, i requires 0 <= i < |plan| => Run(plan[i], 0, 0, 0, false, false));
    report := Report(1, [s.id], 1 * VARIANTS * 2 * 1, 2, offered, Turns(runs));
    TwelveTurns(s);
    hide Plan, Controllers, IsComplete, Offered;
    assert Turns(runs) == plan;
    assert multiset(catalog)["m"] == 2 && "m" in offered;
    CompletedIsReleaseMatrix([s], offered, catalog, 2, runs, report);
  }

  lemma TwelveTurns(s: Scenario)
    ensures |Controllers(Plan(Offered(["m", "m"], ["m"]), [s], 2))| == 12
  {
    OfferedTwice();
    PlanCoversProduct(["m", "m"], [s], 2);
    hide Plan, Controllers;
  }

  lemma OfferedTwice()
    ensures Offered(["m", "m"], ["m"]) == ["m", "m"]
  {
    assert ["m", "m"][..1] == ["m"] && ["m"][..0] == [];
    assert Offered(["m"], ["m"]) == ["m"];
  }
}
