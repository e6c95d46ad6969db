/** What touches, answers and charges do to the counter of backend/src/billing/ledger-rehydrate.ts when they
    interleave: the counterparts, for whole runs of LedgerRehydrate.System, of its results about single reads. */
module LedgerTouches {
  import opened LedgerRehydrate

  /** The first touch of a window: the read it starts leaves the counter at the maximum of its value and the
      floored count, and no later touch reads the window again. */
  lemma TouchSeeds(s: System, address: nat, w: Window, committed: real)
    requires NonNegative(s.state.slots) && NeedsRead(s.state, address, w)
    ensures var t := Next(Next(s, Touch(address, w)), Answer(address, w, Committed(committed)));
            var before, after := Used(s.state.slots, address, w), Used(t.state.slots, address, w);
            && after == (if committed.Floor > before then committed.Floor else before)
            && t.reading == s.reading && t.state.failures == s.state.failures
            && t.state.seeded == s.state.seeded + {(address, w.start)} && Next(t, Touch(address, w)) == t
            && forall other: nat, v ::
              other != address ==> Used(t.state.slots, other, v) == Used(s.state.slots, other, v)
  {
    SeedTakesMaximum(s.state.slots, address, w, committed);
  }

  /** A first touch whose read fails changes no counter and marks nothing, so the next touch reads again. */
  lemma FailedTouchReadsAgain(s: System, address: nat, w: Window)
    requires NeedsRead(s.state, address, w)
    ensures var t := Next(Next(s, Touch(address, w)), Answer(address, w, Failed));
            && t == s.(state := s.state.(failures := s.state.failures + 1))
            && Next(t, Touch(address, w)).reading == s.reading + multiset{(address, w)}
  {}

  /** Two first touches at once both read; whichever answers first, the counter ends at the larger count. */
  lemma TwoTouchesTakeMaximum(s: System, address: nat, w: Window, c: real, d: real)
    requires NonNegative(s.state.slots) && NeedsRead(s.state, address, w)
    ensures var both := Next(Next(s, Touch(address, w)), Touch(address, w));
            var t := Next(Next(both, Answer(address, w, Committed(c))), Answer(address, w, Committed(d)));
            var u := Next(Next(both, Answer(address, w, Committed(d))), Answer(address, w, Committed(c)));
            && Used(t.state.slots, address, w) == Used(u.state.slots, address, w)
              == Max(Used(s.state.slots, address, w), Max(c.Floor, d.Floor))
            && t.reading == u.reading == s.reading
  {
    var both := Next(Next(s, Touch(address, w)), Touch(address, w));
    SeedTakesMaximum(both.state.slots, address, w, c);
    SeedTakesMaximum(Seed(both.state.slots, address, w, c), address, w, d);
    SeedTakesMaximum(both.state.slots, address, w, d);
    SeedTakesMaximum(Seed(both.state.slots, address, w, d), address, w, c);
  }

  /** A charge is added to its window at once, and marks, reads and starts nothing; an answer without a read
      under way does nothing. */
  lemma SpendIsCounted(s: System, address: nat, w: Window, credits: nat, reply: Reply)
    ensures var t := Next(s, Spend(address, w, credits));
            && Used(t.state.slots, address, w) == Used(s.state.slots, address, w) + credits
            && t == s.(state := s.state.(slots := t.state.slots))
    ensures (address, w) !in s.reading ==> Next(s, Answer(address, w, reply)) == s
  {}

  // ---- Whole runs -----------------------------------------------------------------------------------

  /** Only this window of the address is touched, read or charged. */
  predicate OneWindow(acts: seq<Act>, address: nat, w: Window) {
    forall i :: 0 <= i < |acts| && acts[i].address == address ==> acts[i].window == w
  }

  /** What was spent in the window, and the number of its reads answered, are counted act by act. */
  lemma SpentSoFar(acts: seq<Act>, act: Act, address: nat, w: Window)
    ensures Spent([], address, w) == 0
    ensures Spent(acts + [act], address, w) ==
            Spent(acts, address, w) + if act == Spend(address, w, SpendOf(act)) then SpendOf(act) else 0
  {
    assert (acts + [act])[..|acts|] == acts;
  }

  function SpendOf(act: Act): nat { if act.Spend? then act.credits else 0 }

  /** An answer to a read of the window under way, somewhere in the run. */
  predicate Answered(s: System, acts: seq<Act>, i: nat, address: nat, w: Window) {
    && i < |acts| && acts[i].Answer? && acts[i].address == address && acts[i].window == w
    && acts[i].reply.Committed? && (address, w) in Exec(s, acts[..i]).reading
  }

  /** While the address has one window, everything spent in it is counted on top of what it started from, and
      the counter is at no less than any committed count read meanwhile: nothing spent and nothing read is lost,
      however the touches, answers and charges of all addresses interleave. */
  lemma {:induction false} NothingSpentIsLost(s: System, acts: seq<Act>, address: nat, w: Window)
    requires NonNegative(s.state.slots) && OneWindow(acts, address, w)
    requires forall v :: v != w ==> (address, v) !in s.reading
    ensures var t := Exec(s, acts);
            && NonNegative(t.state.slots) && (forall v :: v != w ==> (address, v) !in t.reading)
            && Used(t.state.slots, address, w) >= Used(s.state.slots, address, w) + Spent(acts, address, w)
            && forall i: nat :: Answered(s, acts, i, address, w) ==>
                 Used(t.state.slots, address, w) >= acts[i].reply.credits.Floor
    decreases |acts|
  {
    if acts == [] {
    } else {
      var before, last := acts[..|acts| - 1], acts[|acts| - 1];
      assert acts == before + [last];
      NothingSpentIsLost(s, before, address, w);
      SpentSoFar(before, last, address, w);
      var mid := Exec(s, before);
      ActRaises(mid, last, address, w);
      forall i: nat | Answered(s, acts, i, address, w)
        ensures Used(Exec(s, acts).state.slots, address, w) >= acts[i].reply.credits.Floor
      {
        if i < |before| {
          assert acts[..i] == before[..i] && Answered(s, before, i, address, w);
        } else {
          assert acts[..i] == before;
        }
      }
    }
  }

  lemma ActRaises(s: System, act: Act, address: nat, w: Window)
    requires NonNegative(s.state.slots) && (act.address == address ==> act.window == w)
    requires forall v :: v != w ==> (address, v) !in s.reading
    ensures var t := Next(s, act);
            && NonNegative(t.state.slots) && (forall v :: v != w ==> (address, v) !in t.reading)
            && Used(t.state.slots, address, w) >= Used(s.state.slots, address, w)
                 + (if act == Spend(address, w, SpendOf(act)) then SpendOf(act) else 0)
            && (act.Answer? && act.address == address && act.reply.Committed? && (address, w) in s.reading ==>
                  Used(t.state.slots, address, w) >= act.reply.credits.Floor)
  {
    match act
    case Touch(_, _) =>
    case Answer(a, v, reply) =>
      var read := Read(a, v, reply);
      StepKeepsNonNegative(s.state, read);
      if (a, v) in s.reading {
        if a == address { OwnStep(s.state, read, address, w); } else { OtherStepsLeaveIt(s.state, read, address, w); }
      }
    case Spend(a, v, credits) =>
      var charge := Charge(a, v, credits);
      StepKeepsNonNegative(s.state, charge);
      if a == address { OwnStep(s.state, charge, address, w); } else { OtherStepsLeaveIt(s.state, charge, address, w); }
  }
}
