/** backend/src/billing/ledger-rehydrate.ts over the usage counter of billing/usage.ts: lazy seeding of the
    in-memory credit counter from the durable ledger, under concurrent first touches. */
module LedgerRehydrate {
  datatype WindowKind = Day | Week
  /** A budget window: its kind and its start in epoch milliseconds. */
  datatype Window = Window(kind: WindowKind, start: int)
  /** One usage record per address, replaced when the window changes. */
  datatype Slot = Slot(window: Window, used: int)
  type Slots = map<nat, Slot>

  /** What the ledger answers: a failure (HTTP error, timeout, or a null count) or a committed count. */
  datatype Reply = Failed | Committed(credits: real)

  const K: nat := 200

  function Used(slots: Slots, address: nat, w: Window): int {
    if address in slots && slots[address].window == w then slots[address].used else 0
  }

  function RecordUsage(slots: Slots, address: nat, w: Window, credits: int): Slots {
    if credits <= 0 then slots else slots[address := Slot(w, Used(slots, address, w) + credits)]
  }

  function Max(a: int, b: int): int { if a >= b then a else b }

  /** Seeding after a successful read: the counter is bumped by what it lacks, never by the whole count. */
  function Seed(slots: Slots, address: nat, w: Window, committed: real): Slots {
    if committed > 0.0 then RecordUsage(slots, address, w, Max(0, committed.Floor - Used(slots, address, w))) else slots
  }

  // ---- The rehydrator -----------------------------------------------------------------------------

  /** The key of a seeded counter: address and window start, without the kind of the window. */
  type SeededKey = (nat, int)

  datatype State = State(slots: Slots, seeded: set<SeededKey>, failures: nat)

  const START: State := State(map[], {}, 0)

  /** The part of rehydrateIfNeeded before its fetch. */
  predicate NeedsRead(s: State, address: nat, w: Window) { (address, w.start) !in s.seeded }

  /** The part of rehydrateIfNeeded after its fetch; the flag says "treat as at-limit". */
  function FinishTouch(s: State, address: nat, w: Window, reply: Reply): (State, bool) {
    match reply
    case Failed => (s.(failures := s.failures + 1), s.failures + 1 > K)
    case Committed(credits) =>
      (State(Seed(s.slots, address, w, credits), s.seeded + {(address, w.start)}, s.failures), false)
  }

  class Rehydrator {
    var slots: Slots
    var seeded: set<SeededKey>
    var unrehydratedServes: nat

    ghost function Model(): State reads this { State(slots, seeded, unrehydratedServes) }

    constructor ()
      ensures Model() == START && NonNegative(slots)
    {
      slots, seeded, unrehydratedServes := map[], {}, 0;
    }

    method Begin(address: nat, w: Window) returns (read: bool)
      ensures read <==> NeedsRead(Model(), address, w)
    {
      read := (address, w.start) !in seeded;
    }

    /** A successful read leaves the window's counter at the maximum of its value and the floored count and
        marks its key; a failed one changes and marks nothing but is counted, and only a failure past the
        allowance is answered at-limit. No other address is touched. */
    method Finish(address: nat, w: Window, reply: Reply) returns (atLimit: bool)
      modifies this
      ensures (Model(), atLimit) == FinishTouch(old(Model()), address, w, reply)
      ensures old(NonNegative(slots)) ==> NonNegative(slots)
      ensures reply.Failed? ==>
        slots == old(slots) && seeded == old(seeded) && unrehydratedServes == old(unrehydratedServes) + 1
      ensures atLimit <==> reply.Failed? && unrehydratedServes > K
      ensures reply.Committed? ==>
        && (old(NonNegative(slots)) ==>
          Used(slots, address, w) == Max(old(Used(slots, address, w)), reply.credits.Floor))
        && !NeedsRead(Model(), address, w) && unrehydratedServes == old(unrehydratedServes)
      ensures forall other, v :: other != address ==> Used(slots, other, v) == old(Used(slots, other, v))
    {
      if reply.Failed? {
        unrehydratedServes := unrehydratedServes + 1;
        return unrehydratedServes > K;
      }
      seeded := seeded + {(address, w.start)};
      if reply.credits > 0.0 {
        var local := Used(slots, address, w);
        var delta := Max(0, reply.credits.Floor - local);
        if delta > 0 {
          slots := RecordUsage(slots, address, w, delta);
        }
      }
      return false;
    }
  }

  // ---- Runs of reads and charges ------------------------------------------------------------------

  ghost predicate NonNegative(slots: Slots) { forall a :: a in slots ==> slots[a].used >= 0 }

  /** One seeding leaves the counter at the maximum of its value and the floored count. */
  lemma SeedTakesMaximum(slots: Slots, address: nat, w: Window, committed: real)
    requires NonNegative(slots)
    ensures Used(Seed(slots, address, w, committed), address, w) == Max(Used(slots, address, w), committed.Floor)
    ensures NonNegative(Seed(slots, address, w, committed))
    ensures forall other, v ::
        other != address ==> Used(Seed(slots, address, w, committed), other, v) == Used(slots, other, v)
  {
  }

  /** What happens to the counters, whatever interleaves: a read of some window finishes, or a served
      request charges credits to some window. */
  datatype Step = Read(address: nat, window: Window, reply: Reply) | Charge(address: nat, window: Window, credits: nat)

  function Apply(s: State, step: Step): State {
    match step
    case Read(address, w, reply) => FinishTouch(s, address, w, reply).0
    case Charge(address, w, credits) => s.(slots := RecordUsage(s.slots, address, w, credits))
  }

  function ApplyAll(s: State, steps: seq<Step>): State {
    if steps == [] then s else Apply(ApplyAll(s, steps[..|steps| - 1]), steps[|steps| - 1])
  }

  predicate Own(step: Step, address: nat, w: Window) { step.address == address && step.window == w }

  /** A write to another window of the address: it takes the address's only record away from the window. */
  predicate Displaces(step: Step, address: nat, w: Window) {
    && step.address == address && step.window != w
    && match step case Read(_, _, reply) => reply.Committed? && reply.credits >= 1.0
      case Charge(_, _, credits) => credits > 0
  }

  /** The steps after the last one that displaced the window. */
  function Since(steps: seq<Step>, address: nat, w: Window): seq<Step> {
    if steps == [] then []
    else if Displaces(steps[|steps| - 1], address, w) then []
    else Since(steps[..|steps| - 1], address, w) + [steps[|steps| - 1]]
  }

  predicate Displaced(steps: seq<Step>, address: nat, w: Window) {
    exists i :: 0 <= i < |steps| && Displaces(steps[i], address, w)
  }

  /** The largest floored committed read of the window. */
  function LargestRead(steps: seq<Step>, address: nat, w: Window): int {
    if steps == [] then 0
    else
      var before, last := LargestRead(steps[..|steps| - 1], address, w), steps[|steps| - 1];
      if Own(last, address, w) && last.Read? && last.reply.Committed? then Max(before, last.reply.credits.Floor)
      else before
  }

  function TotalCharged(steps: seq<Step>, address: nat, w: Window): nat {
    if steps == [] then 0
    else
      var before, last := TotalCharged(steps[..|steps| - 1], address, w), steps[|steps| - 1];
      if Own(last, address, w) && last.Charge? then before + last.credits else before
  }

  lemma StepKeepsNonNegative(s: State, step: Step)
    requires NonNegative(s.slots)
    ensures NonNegative(Apply(s, step).slots)
  {
  }

  /** After a displacing step the window's counter is gone. */
  lemma DisplacedIsZero(s: State, step: Step, address: nat, w: Window)
    requires NonNegative(s.slots) && Displaces(step, address, w)
    ensures Used(Apply(s, step).slots, address, w) == 0
  {
  }

  lemma OtherStepsLeaveIt(s: State, step: Step, address: nat, w: Window)
    requires NonNegative(s.slots) && !Displaces(step, address, w) && !Own(step, address, w)
    ensures Used(Apply(s, step).slots, address, w) == Used(s.slots, address, w)
  {
  }

  /** The last step, seen from one window. */
  lemma LastStep(steps: seq<Step>, step: Step, address: nat, w: Window)
    ensures (steps + [step])[..|steps|] == steps
    ensures Since(steps + [step], address, w) == if Displaces(step, address, w) then []
        else Since(steps, address, w) + [step]
    ensures Displaced(steps + [step], address, w) <==> Displaced(steps, address, w) || Displaces(step, address, w)
    ensures LargestRead(steps + [step], address, w) ==
            if Own(step, address, w) && step.Read?
              && step.reply.Committed? then Max(LargestRead(steps, address, w), step.reply.credits.Floor)
            else LargestRead(steps, address, w)
    ensures TotalCharged(steps + [step], address, w) ==
            TotalCharged(steps, address, w) + if Own(step, address, w) && step.Charge? then step.credits else 0
  {
    assert (steps + [step])[..|steps|] == steps;
    if Displaced(steps, address, w) {
      var i :| 0 <= i < |steps| && Displaces(steps[i], address, w);
      assert Displaces((steps + [step])[i], address, w);
    }
    if Displaces(step, address, w) { assert Displaces((steps + [step])[|steps|], address, w); }
  }

  /** What the window starts again from: its prior value, or nothing once it was displaced. */
  function Base(s: State, steps: seq<Step>, address: nat, w: Window): int {
    if Displaced(steps, address, w) then 0 else Used(s.slots, address, w)
  }

  /** The counter after a run: since the window was last displaced, the maximum of what it started from and
      all its floored reads, with the charges made meanwhile counted on top at most once. */
  ghost predicate Counted(base: int, charged: int, largest: int, after: int) {
    && Max(base + charged, largest) <= after <= Max(base, largest) + charged
    && (charged == 0 ==> after == Max(base, largest))
  }

  ghost predicate CountedSince(s: State, steps: seq<Step>, address: nat, w: Window) {
    var tail := Since(steps, address, w);
    Counted(Base(s, steps, address, w), TotalCharged(tail, address, w), LargestRead(tail, address, w),
      Used(ApplyAll(s, steps).slots, address, w))
  }

  lemma CountStep(s: State, before: seq<Step>, last: Step, address: nat, w: Window)
    requires NonNegative(s.slots) && NonNegative(ApplyAll(s, before).slots) && CountedSince(s, before, address, w)
    ensures CountedSince(s, before + [last], address, w)
  {
    var mid, tail := ApplyAll(s, before), Since(before, address, w);
    var base, charged, largest := Base(s, before, address, w), TotalCharged(tail, address, w),
      LargestRead(tail, address, w);
    LastStep(before, last, address, w);
    LastStep(tail, last, address, w);
    assert ApplyAll(s, before + [last]) == Apply(mid, last);
    hide ApplyAll, Since, Displaced, LargestRead, TotalCharged, NonNegative, Apply, Displaces, Used, Counted, Max;
    if Displaces(last, address, w) {
      DisplacedIsZero(mid, last, address, w);
      NothingSince(address, w);
      CountNothing();
    } else if !Own(last, address, w) {
      OtherStepsLeaveIt(mid, last, address, w);
    } else {
      OwnStep(mid, last, address, w);
      match last
      case Read(_, _, Failed) =>
      case Read(_, _, Committed(c)) => CountRead(base, charged, largest, Used(mid.slots, address, w), c.Floor);
      case Charge(_, _, credits) => CountCharge(base, charged, largest, Used(mid.slots, address, w), credits);
    }
  }

  lemma CountNothing()
    ensures Counted(0, 0, 0, 0)
  {
  }

  /** A read of n credits raises the counter, and the largest read, to n. */
  lemma CountRead(base: int, charged: nat, largest: int, after: int, n: int)
    requires Counted(base, charged, largest, after)
    ensures Counted(base, charged, Max(largest, n), Max(after, n))
  {
  }

  /** A charge of n credits counts once. */
  lemma CountCharge(base: int, charged: nat, largest: int, after: int, n: nat)
    requires Counted(base, charged, largest, after)
    ensures Counted(base, charged + n, largest, after + n)
  {
  }

  /** Whatever reads and charges of whatever addresses and windows interleave: since the window was last
      displaced, its counter is at the maximum of what it started from and all its floored reads, never at
      their sum, and requests charged meanwhile are counted on top at most once. */
  lemma {:induction false} ReadsNeverAddUp(s: State, steps: seq<Step>, address: nat, w: Window)
    requires NonNegative(s.slots)
    ensures NonNegative(ApplyAll(s, steps).slots) && CountedSince(s, steps, address, w)
    decreases |steps|
  {
    if steps == [] {
      NothingSince(address, w);
    } else {
      var before, last := steps[..|steps| - 1], steps[|steps| - 1];
      assert steps == before + [last];
      ReadsNeverAddUp(s, before, address, w);
      StepKeepsNonNegative(ApplyAll(s, before), last);
      hide CountedSince, NonNegative;
      CountStep(s, before, last, address, w);
    }
  }

  lemma NothingSince(address: nat, w: Window)
    ensures LargestRead([], address, w) == 0 && TotalCharged([], address, w) == 0
  {
  }

  lemma OwnStep(s: State, step: Step, address: nat, w: Window)
    requires NonNegative(s.slots) && Own(step, address, w)
    ensures Used(Apply(s, step).slots, address, w) ==
            match step
            case Read(_, _, Failed) => Used(s.slots, address, w)
            case Read(_, _, Committed(c)) => Max(Used(s.slots, address, w), c.Floor)
            case Charge(_, _, credits) => Used(s.slots, address, w) + credits
  {
  }

  // ---- When a seeding lasts -----------------------------------------------------------------------

  /** A run that charges the window nothing ends at the maximum of its prior value and all its reads exactly
      when no other window of the address was written meanwhile, or that maximum was read again since. */
  lemma MaximumIff(s: State, steps: seq<Step>, address: nat, w: Window)
    requires NonNegative(s.slots) && TotalCharged(steps, address, w) == 0
    ensures var largest := Max(Used(s.slots, address, w), LargestRead(steps, address, w));
            Used(ApplyAll(s, steps).slots, address, w) == largest
            <==> !Displaced(steps, address, w) || LargestRead(Since(steps, address, w), address, w) == largest
  {
    ReadsNeverAddUp(s, steps, address, w);
    SinceIsPart(steps, address, w);
  }

  lemma {:induction false} SinceIsPart(steps: seq<Step>, address: nat, w: Window)
    ensures TotalCharged(Since(steps, address, w), address, w) <= TotalCharged(steps, address, w)
    ensures 0 <= LargestRead(Since(steps, address, w), address, w)
    ensures !Displaced(steps, address, w) ==> Since(steps, address, w) == steps
  {
    if steps == [] {
      NothingSince(address, w);
    } else {
      var before, last := steps[..|steps| - 1], steps[|steps| - 1];
      assert steps == before + [last];
      SinceIsPart(before, address, w);
      LastStep(before, last, address, w);
      LastStep(Since(before, address, w), last, address, w);
      NothingSince(address, w);
    }
  }

  /** A committed read of at least one credit stays in the counter whatever happens later, as long as no other
      window of the same address is written; once one is, the counter shows only what was read or charged
      since. So, unless the window is read or charged again after that, the seeding lasts exactly when no
      other window was written. */
  lemma SeedingLastsIff(s: State, address: nat, w: Window, committed: real, later: seq<Step>)
    requires NonNegative(s.slots) && committed >= 1.0
    ensures var seeded := Apply(s, Read(address, w, Committed(committed)));
            var after, tail := Used(ApplyAll(seeded, later).slots, address, w), Since(later, address, w);
            && (!Displaced(later, address, w) ==> after >= committed.Floor)
            && (Displaced(later, address, w) ==>
              after <= LargestRead(tail, address, w) + TotalCharged(tail, address, w))
            && ((forall i :: 0 <= i < |tail| ==> !Own(tail[i], address, w)) ==>
              (after >= committed.Floor <==> !Displaced(later, address, w)))
  {
    var seeded, tail := Apply(s, Read(address, w, Committed(committed))), Since(later, address, w);
    OwnStep(s, Read(address, w, Committed(committed)), address, w);
    StepKeepsNonNegative(s, Read(address, w, Committed(committed)));
    ReadsNeverAddUp(seeded, later, address, w);
    SinceIsPart(later, address, w);
    if forall i :: 0 <= i < |tail| ==> !Own(tail[i], address, w) { NoOwnSteps(tail, address, w); }
  }

  lemma {:induction false} NoOwnSteps(steps: seq<Step>, address: nat, w: Window)
    requires forall i :: 0 <= i < |steps| ==> !Own(steps[i], address, w)
    ensures LargestRead(steps, address, w) == 0 && TotalCharged(steps, address, w) == 0
  {
    if steps == [] {
      NothingSince(address, w);
    } else {
      NoOwnSteps(steps[..|steps| - 1], address, w);
    }
  }

  // ---- Touches in flight --------------------------------------------------------------------------

  /** The reads under way, by address and window. */
  datatype System = System(state: State, reading: multiset<(nat, Window)>)

  datatype Act =
    | Touch(address: nat, window: Window)               // skipped when the key is marked, else a read starts
    | Answer(address: nat, window: Window, reply: Reply) // a read under way finishes
    | Spend(address: nat, window: Window, credits: nat)  // a served request is charged

  function Next(s: System, act: Act): System {
    match act
    case Touch(address, w) =>
      if NeedsRead(s.state, address, w) then s.(reading := s.reading + multiset{(address, w)}) else s
    case Answer(address, w, reply) =>
      if (address, w) !in s.reading then s
      else System(Apply(s.state, Read(address, w, reply)), s.reading - multiset{(address, w)})
    case Spend(address, w, credits) => s.(state := Apply(s.state, Charge(address, w, credits)))
  }

  function Exec(s: System, acts: seq<Act>): System {
    if acts == [] then s else Next(Exec(s, acts[..|acts| - 1]), acts[|acts| - 1])
  }

  /** The credits spent in a window. */
  function Spent(acts: seq<Act>, address: nat, w: Window): nat {
    if acts == [] then 0
    else
      var before, last := Spent(acts[..|acts| - 1], address, w), acts[|acts| - 1];
      if last.Spend? && last.address == address && last.window == w then before + last.credits else before
  }

  /** Once a window is marked as seeded and no read of it is under way, no touch ever reads it again. */
  ghost predicate NeverReadAgain(s: System, address: nat, w: Window) {
    !NeedsRead(s.state, address, w) && (address, w) !in s.reading
  }

  /** A marked window whose counter was displaced stays without its committed credits for good: whatever
      happens later, its counter shows at most what is spent from then on. */
  lemma {:induction false} DisplacedForGood(s: System, acts: seq<Act>, address: nat, w: Window)
    requires NonNegative(s.state.slots) && NeverReadAgain(s, address, w) && Used(s.state.slots, address, w) == 0
    ensures var t := Exec(s, acts);
            && NonNegative(t.state.slots) && NeverReadAgain(t, address, w)
            && Used(t.state.slots, address, w) <= Spent(acts, address, w)
    decreases |acts|
  {
    if acts != [] {
      var before, last := acts[..|acts| - 1], acts[|acts| - 1];
      DisplacedForGood(s, before, address, w);
      NextNeverReads(Exec(s, before), last, address, w);
    }
  }

  lemma NextNeverReads(s: System, act: Act, address: nat, w: Window)
    requires NonNegative(s.state.slots) && NeverReadAgain(s, address, w)
    ensures var t := Next(s, act);
            && NonNegative(t.state.slots) && NeverReadAgain(t, address, w)
            && Used(t.state.slots, address, w) <= Used(s.state.slots, address, w)
                 + (if act.Spend? && act.address == address && act.window == w then act.credits else 0)
  {
    hide Apply, NonNegative;
    if act.Answer? && (act.address, act.window) in s.reading {
      ApplyBounds(s.state, Read(act.address, act.window, act.reply), address, w);
    }
    if act.Spend? { ApplyBounds(s.state, Charge(act.address, act.window, act.credits), address, w); }
  }

  lemma ApplyBounds(s: State, step: Step, address: nat, w: Window)
    requires NonNegative(s.slots) && !(Own(step, address, w) && step.Read?)
    ensures NonNegative(Apply(s, step).slots) && s.seeded <= Apply(s, step).seeded
    ensures Used(Apply(s, step).slots, address, w)
        <= Used(s.slots, address, w) + (if Own(step, address, w) then step.credits else 0)
  {
  }

  const FIRST_DAY := Window(Day, 0)
  const SECOND_DAY := Window(Day, 86400000)

  /** Such a run: one read of an address starts before midnight and one after it; the later day's read
      finishes first and seeds 500 credits, then the earlier day's read finishes with 10. The new day is
      marked as seeded, its counter is 0, and it is never read again. */
  lemma MidnightReadDisplacesNewDay()
    ensures
      var acts := [Touch(1, FIRST_DAY), Touch(1, SECOND_DAY), Answer(1, SECOND_DAY, Committed(500.0)),
        Answer(1, FIRST_DAY, Committed(10.0))];
      var s := Exec(System(START, multiset{}), acts);
      NeverReadAgain(s, 1, SECOND_DAY) && Used(s.state.slots, 1, SECOND_DAY) == 0 && NonNegative(s.state.slots)
  {
    FourActs(System(START, multiset{}), Touch(1, FIRST_DAY), Touch(1, SECOND_DAY),
             Answer(1, SECOND_DAY, Committed(500.0)), Answer(1, FIRST_DAY, Committed(10.0)));
    hide Exec, Apply, Next;
    BothTouched();
    NewDaySeeded();
    OldDayAnswers();
  }

  lemma BothTouched()
    ensures Next(Next(System(START, multiset{}), Touch(1, FIRST_DAY)), Touch(1, SECOND_DAY))
            == System(START, multiset{(1, FIRST_DAY), (1, SECOND_DAY)})
  {
  }

  const NEW_DAY_SEEDED := State(map[1 := Slot(SECOND_DAY, 500)], {(1, 86400000)}, 0)
  const OLD_DAY_ANSWERED := State(map[1 := Slot(FIRST_DAY, 10)], {(1, 86400000), (1, 0)}, 0)

  lemma NewDaySeeded()
    ensures Next(System(START, multiset{(1, FIRST_DAY), (1, SECOND_DAY)}), Answer(1, SECOND_DAY, Committed(500.0)))
            == System(NEW_DAY_SEEDED, multiset{(1, FIRST_DAY)})
  {
    assert Apply(START, Read(1, SECOND_DAY, Committed(500.0))) == NEW_DAY_SEEDED;
  }

  lemma OldDayAnswers()
    ensures Next(System(NEW_DAY_SEEDED, multiset{(1, FIRST_DAY)}), Answer(1, FIRST_DAY, Committed(10.0)))
      == System(OLD_DAY_ANSWERED, multiset{})
  {
    assert Apply(NEW_DAY_SEEDED, Read(1, FIRST_DAY, Committed(10.0))) == OLD_DAY_ANSWERED;
  }

  lemma FourActs(s: System, a: Act, b: Act, c: Act, d: Act)
    ensures Exec(s, [a, b, c, d]) == Next(Next(Next(Next(s, a), b), c), d)
  {
    hide Next;
    assert [a, b, c, d][..3] == [a, b, c] && [a, b, c][..2] == [a, b] && [a, b][..1] == [a] && [a][..0] == [];
    assert Exec(s, [a]) == Next(s, a);
    assert Exec(s, [a, b]) == Next(Exec(s, [a]), b);
    assert Exec(s, [a, b, c]) == Next(Exec(s, [a, b]), c);
  }

  // ---- Failures and marks -------------------------------------------------------------------------

  /** The answers to the failed reads, in order. */
  function Answers(steps: seq<Step>): seq<bool> {
    if steps == [] then []
    else
      var before, last := steps[..|steps| - 1], steps[|steps| - 1];
      if last.Read? && last.reply.Failed?
        then Answers(before) + [FinishTouch(ApplyAll(START, before), last.address, last.window, last.reply).1]
      else Answers(before)
  }

  /** A read of exactly this window succeeded. */
  ghost predicate WasRead(steps: seq<Step>, address: nat, w: Window) {
    exists t :: t in steps && t.Read? && t.address == address && t.window == w && t.reply.Committed?
  }

  ghost predicate KeyWasRead(steps: seq<Step>, address: nat, start: int) {
    WasRead(steps, address, Window(Day, start)) || WasRead(steps, address, Window(Week, start))
  }

  lemma {:induction false} RunFacts(steps: seq<Step>)
    ensures
      var s := ApplyAll(START, steps);
      && |Answers(steps)| == s.failures
      && (forall i :: 0 <= i < |Answers(steps)| ==> (Answers(steps)[i] <==> i >= K))
      && (forall a: nat, start: int :: (a, start) in s.seeded <==> KeyWasRead(steps, a, start))
  {
    if steps != [] {
      var before, t := steps[..|steps| - 1], steps[|steps| - 1];
      RunFacts(before);
      assert steps == before + [t];
      forall a: nat, start: int
        ensures (a, start) in ApplyAll(START, steps).seeded <==> KeyWasRead(steps, a, start)
      {
        OneMoreRead(before, t, a, Window(Day, start));
        OneMoreRead(before, t, a, Window(Week, start));
        assert t.window == Window(Day, t.window.start)
          || t.window == Window(Week, t.window.start) by { match t.window.kind case Day => case Week => }
      }
    }
  }

  lemma OneMoreRead(before: seq<Step>, t: Step, address: nat, w: Window)
    ensures WasRead(before + [t], address, w) <==>
      WasRead(before, address, w) || (t.Read? && t.address == address && t.window == w && t.reply.Committed?)
  {
    if WasRead(before, address, w) {
      var x :| x in before && x.Read? && x.address == address && x.window == w && x.reply.Committed?;
      assert x in before + [t];
    }
    assert t in before + [t];
  }

  /** Exactly the first 200 failed reads of a process are forgiven; every later one is answered at-limit. */
  lemma FirstFailuresForgiven(steps: seq<Step>, i: nat)
    requires i < |Answers(steps)|
    ensures Answers(steps)[i] <==> i >= 200
  {
    RunFacts(steps);
  }

  /** A failed or null read never marks a key as rehydrated. */
  lemma FailuresNeverMark(steps: seq<Step>, address: nat, start: int)
    requires (address, start) in ApplyAll(START, steps).seeded
    ensures exists t :: t in steps && t.Read? && t.address == address && t.window.start == start && t.reply.Committed?
  {
    RunFacts(steps);
    var w := if WasRead(steps, address, Window(Day, start)) then Window(Day, start) else Window(Week, start);
    var t :| t in steps && t.Read? && t.address == address && t.window == w && t.reply.Committed?;
  }

  function OtherKind(w: Window): Window { w.(kind := if w.kind.Day? then Week else Day) }

  /** The key carries no window kind, so a window that was never read can be taken as seeded: this happens
      exactly when the window of the other kind with the same start was read. */
  lemma UnreadWindowSkippedIff(steps: seq<Step>, address: nat, w: Window)
    requires !WasRead(steps, address, w)
    ensures !NeedsRead(ApplyAll(START, steps), address, w) <==> WasRead(steps, address, OtherKind(w))
  {
    RunFacts(steps);
    assert w == Window(w.kind, w.start);
  }

  /** Such a run: after a paid week starting at midnight was seeded with 500 credits, the free day with the
      same start counts as seeded while its own counter is still 0. */
  lemma CollidingWindowIsNotSeeded()
    ensures var s := ApplyAll(START, [Read(1, Window(Week, 0), Committed(500.0))]);
            && !NeedsRead(s, 1, Window(Day, 0))
            && Used(s.slots, 1, Window(Week, 0)) == 500
            && Used(s.slots, 1, Window(Day, 0)) == 0
  {
    var steps := [Read(1, Window(Week, 0), Committed(500.0))];
    assert steps[..0] == [];
    assert ApplyAll(START, steps) == Apply(START, steps[0]);
  }
}
