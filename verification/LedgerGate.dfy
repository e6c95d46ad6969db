/** backend/src/billing/ledger-gate.ts and the entitlement read it decides on: the shared credit gate of
    the chat routes. */
module LedgerGate {
  import opened Optional
  import LedgerRehydrate

  datatype BudgetWindow = DayWindow | WeekWindow | MonthWindow
  datatype PeriodAnchor = UtcDay | AnchoredWeek | CalendarMonth | OtherAnchor(name: nat)
  /** A number of the sidecar's JSON that may fail Number.isFinite. */
  datatype Limit = Finite(credits: real) | NotFinite
  /** The committed count of a JSON body: null, a finite number, a number literal that overflows, or anything
      else, an absent field included, with the number that comparing it converts it to (None is NaN). */
  datatype Count = Null | Number(credits: real) | Infinite(positive: bool) | Other(asNumber: Option<real>)
  datatype Entitlement = Entitlement(limit: Option<Limit>, committed: Count, periodAnchor: Option<PeriodAnchor>,
      isOutage: bool)
  datatype Policy = FailClosed | FailOpen | BoundedK
  datatype Reason = Allow | LedgerLimit | Outage
  datatype Source = Ledger | OutagePolicy | ConfigOutage | AuthorityMismatch | KDegrade
  /** `consulted` says that isLocalOverBudget was called. */
  datatype Decision = Decision(deny: bool, includeUsage: bool, reason: Reason, source: Source, consulted: bool)

  /** The sidecar's answer to an entitlement read. */
  datatype Response = NoAnswer | Body(limit: Option<Limit>, committed: Count, periodAnchor: Option<PeriodAnchor>)

  /** Only a null count is an outage here; every other value is handed on. */
  function GetEntitlement(r: Response): Entitlement {
    match r
    case NoAnswer => Entitlement(None, Null, None, true)
    case Body(limit, committed, anchor) => Entitlement(limit, committed, anchor, committed.Null?)
  }

  /** `committed >= limit`: every comparison with NaN is false. */
  predicate AtLimit(committed: Count, limit: real) {
    match committed
    case Null => 0.0 >= limit
    case Number(credits) => credits >= limit
    case Infinite(positive) => positive
    case Other(asNumber) => asNumber.Some? && asNumber.value >= limit
  }

  function ExpectedAnchor(w: BudgetWindow): PeriodAnchor {
    match w
    case DayWindow => UtcDay
    case WeekWindow => AnchoredWeek
    case MonthWindow => CalendarMonth
  }

  function ApplyOutagePolicy(policy: Policy, localOverBudget: bool, source: Source): Decision {
    match policy
    case FailClosed => Decision(true, true, Outage, source, false)
    case FailOpen => Decision(false, true, Outage, source, false)
    case BoundedK => Decision(localOverBudget, true, Outage, source, true)
  }

  function Evaluate(w: BudgetWindow, anchor: Option<int>, e: Option<Entitlement>, policy: Policy,
      localOverBudget: bool): Decision
  {
    if w.WeekWindow? && anchor.None? then Decision(true, false, Outage, ConfigOutage, false)
    else if e.None? || e.value.isOutage || e.value.committed.Null?
      || e.value.limit.None? then ApplyOutagePolicy(policy, localOverBudget, OutagePolicy)
    else if e.value.periodAnchor != Some(ExpectedAnchor(w))
      then ApplyOutagePolicy(policy, localOverBudget, AuthorityMismatch)
    else if e.value.limit.value.NotFinite?
      || e.value.limit.value.credits <= 0.0 then ApplyOutagePolicy(policy, localOverBudget, ConfigOutage)
    else
      var over := AtLimit(e.value.committed, e.value.limit.value.credits);
      Decision(over, true, if over then LedgerLimit else Allow, Ledger, false)
  }

  /** The committed count is compared with the limit: neither is null, the window authorities agree and the
      limit is a positive number. */
  predicate Comparable(w: BudgetWindow, anchor: Option<int>, e: Option<Entitlement>) {
    && !(w.WeekWindow? && anchor.None?)
    && e.Some? && !e.value.isOutage && !e.value.committed.Null? && e.value.limit.Some?
    && e.value.periodAnchor ==
         Some(if w.DayWindow? then UtcDay else if w.WeekWindow? then AnchoredWeek else CalendarMonth)
    && e.value.limit.value.Finite? && e.value.limit.value.credits > 0.0
  }

  /** The count is, or converts to, a number at or over the limit; an absent one converts to none. */
  ghost predicate Reaches(committed: Count, limit: real) {
    || (committed.Number? && committed.credits >= limit)
    || committed == Infinite(true)
    || (committed.Other? && committed.asNumber.Some? && !(committed.asNumber.value < limit))
  }

  /** A ledger verdict is given exactly when the numbers are comparable, and it denies exactly when the count
      is, or converts to, a number at or over the limit. */
  lemma LedgerVerdictIff(w: BudgetWindow, anchor: Option<int>, e: Option<Entitlement>, policy: Policy, local: bool)
    ensures var d := Evaluate(w, anchor, e, policy, local);
            && (d.source == Ledger <==> Comparable(w, anchor, e))
            && (d.source == Ledger ==> (d.deny <==> Reaches(e.value.committed, e.value.limit.value.credits)))
            && (d.source == Ledger ==> (d.reason == LedgerLimit <==> d.deny) && (d.reason == Allow <==> !d.deny))
            && (d.source != Ledger ==> d.reason == Outage)
  {
  }

  /** Without a ledger verdict: a missing weekly anchor denies under every policy; otherwise the policy decides,
      and the reason says whether there is nothing to compare, the windows do not agree or the limit is no
      positive number. */
  lemma OutageVerdict(w: BudgetWindow, anchor: Option<int>, e: Option<Entitlement>, policy: Policy, local: bool)
    requires !Comparable(w, anchor, e)
    ensures
      var d := Evaluate(w, anchor, e, policy, local);
      var unanchored := w.WeekWindow? && anchor.None?;
      var nothing := e.None? || e.value.isOutage || e.value.committed.Null? || e.value.limit.None?;
      var mismatched := !nothing && e.value.periodAnchor !=
        Some(if w.DayWindow? then UtcDay else if w.WeekWindow? then AnchoredWeek else CalendarMonth);
      && (d.deny <==> unanchored || policy.FailClosed? || (policy.BoundedK? && local))
      && (d.source == if unanchored then ConfigOutage else if nothing then OutagePolicy
                      else if mismatched then AuthorityMismatch else ConfigOutage)
      && (d.includeUsage <==> !unanchored)
  {
  }

  /** Mismatched windows are never compared: unless the numbers are comparable, neither the committed
      count nor the limit can change whether the request is denied. */
  lemma NeverComparesMismatched(w: BudgetWindow, anchor: Option<int>, e1: Option<Entitlement>,
      e2: Option<Entitlement>, policy: Policy, local: bool)
    requires !Comparable(w, anchor, e1) && !Comparable(w, anchor, e2)
    ensures Evaluate(w, anchor, e1, policy, local).deny == Evaluate(w, anchor, e2, policy, local).deny
    ensures Evaluate(w, anchor, e1, policy, local).consulted == Evaluate(w, anchor, e2, policy, local).consulted
  {
  }

  /** Local usage is consulted exactly by the bounded policy when a safe local window exists and the ledger
      cannot be compared; otherwise it cannot influence the decision. In particular it is never evaluated
      when the weekly anchor is missing, and then the request is denied without a usage report. */
  lemma LocalUsageConsultedIff(w: BudgetWindow, anchor: Option<int>, e: Option<Entitlement>, policy: Policy,
      local: bool)
    ensures var d := Evaluate(w, anchor, e, policy, local);
            && (d.consulted <==> policy.BoundedK? && !(w.WeekWindow? && anchor.None?) && !Comparable(w, anchor, e))
            && (!d.consulted ==> d == Evaluate(w, anchor, e, policy, !local))
            && (w.WeekWindow? && anchor.None? ==> d.deny && !d.includeUsage && d.source == ConfigOutage)
            && (!d.includeUsage ==> w.WeekWindow? && anchor.None?)
  {
  }

  // ---- The gate on top of the read ----------------------------------------------------------------

  /** A null count, whatever else the answer says, and no answer at all are the same to the gate as never
      having asked, in every window and under every policy. */
  lemma SoftFailureIsAnOutage(w: BudgetWindow, anchor: Option<int>, r: Response, policy: Policy, local: bool)
    requires r.NoAnswer? || r.committed.Null?
    ensures Evaluate(w, anchor, Some(GetEntitlement(r)), policy, local) == Evaluate(w, anchor, None, policy, local)
    ensures Evaluate(w, anchor, Some(GetEntitlement(r)), policy, local).source != Ledger
  {
  }

  /** What the seeding read of LedgerRehydrate makes of the same answer: only a finite number is a count. */
  function SeedingReply(r: Response): LedgerRehydrate.Reply {
    if r.Body? && r.committed.Number? then LedgerRehydrate.Committed(r.committed.credits) else LedgerRehydrate.Failed
  }

  /** The gate and the seeding read disagree about an answer, one comparing what the other takes for a
      failure, exactly when it carries a count that is neither null nor a finite number beside a positive
      limit of the expected window. */
  lemma ReadsDisagreeIff(w: BudgetWindow, anchor: Option<int>, r: Response, policy: Policy, local: bool)
    ensures Evaluate(w, anchor, Some(GetEntitlement(r)), policy, local).source == Ledger && SeedingReply(r).Failed?
            <==> && r.Body? && (r.committed.Infinite? || r.committed.Other?)
                 && !(w.WeekWindow? && anchor.None?) && r.periodAnchor == Some(ExpectedAnchor(w))
                 && r.limit.Some? && r.limit.value.Finite? && r.limit.value.credits > 0.0
  {
  }

  /** An answer without a count: with a positive limit of the expected window the ledger allows, under every
      policy and whatever has been used, although the seeding read counts the same answer as a failure. */
  lemma MissingCountIsAllowed(w: BudgetWindow, anchor: Option<int>, limit: real, policy: Policy, local: bool)
    requires limit > 0.0 && !(w.WeekWindow? && anchor.None?)
    ensures var r := Body(Some(Finite(limit)), Other(None), Some(ExpectedAnchor(w)));
            && Evaluate(w, anchor, Some(GetEntitlement(r)), policy, local)
              == Decision(false, true, Allow, Ledger, false)
            && SeedingReply(r).Failed?
  {
  }

  /** The two gates agree: after the local counter was seeded from the very count the ledger gate compares,
      it is at a whole limit exactly when it was before or the ledger gate denies. */
  lemma SeededCounterAgreesWithGate(slots: LedgerRehydrate.Slots, address: nat, local: LedgerRehydrate.Window,
                                    w: BudgetWindow, anchor: Option<int>, e: Entitlement, limit: nat, policy: Policy,
                                      over: bool)
    requires LedgerRehydrate.NonNegative(slots)
    requires Comparable(w, anchor, Some(e)) && e.committed.Number? && e.limit == Some(Finite(limit as real))
    ensures var seeded := LedgerRehydrate.Seed(slots, address, local, e.committed.credits);
            LedgerRehydrate.Used(seeded, address, local) >= limit
            <==> LedgerRehydrate.Used(slots, address, local) >= limit || Evaluate(w, anchor, Some(e), policy, over).deny
  {
    LedgerRehydrate.SeedTakesMaximum(slots, address, local, e.committed.credits);
    assert e.committed.credits.Floor >= limit <==> e.committed.credits >= limit as real;
  }

  /** The local decision of the bounded policy during an outage, after a run of reads and charges. */
  predicate OutageDenies(s: LedgerRehydrate.State, address: nat, local: LedgerRehydrate.Window, w: BudgetWindow,
      anchor: Option<int>, limit: nat)
  {
    Evaluate(w, anchor, None, BoundedK, LedgerRehydrate.Used(s.slots, address, local) >= limit).deny
  }

  /** From the ledger into an outage: the count that the gate compares also seeds the local counter, then any
      reads and charges of any addresses and windows follow, and then the ledger is gone. As long as no other
      window of the address was written, a denial stays a denial; and if the window was charged nothing, the
      outage denies exactly when the ledger did, the counter was at the limit before, or a later read was. */
  lemma OutageKeepsDenial(s: LedgerRehydrate.State, address: nat, local: LedgerRehydrate.Window,
      later: seq<LedgerRehydrate.Step>,
                          w: BudgetWindow, anchor: Option<int>, e: Entitlement, limit: nat, policy: Policy, over: bool)
    requires LedgerRehydrate.NonNegative(s.slots)
    requires Comparable(w, anchor, Some(e)) && e.committed.Number? && e.limit == Some(Finite(limit as real))
    requires !LedgerRehydrate.Displaced(later, address, local)
    ensures
      var t := LedgerRehydrate.ApplyAll(LedgerRehydrate.Apply(s,
        LedgerRehydrate.Read(address, local, LedgerRehydrate.Committed(e.committed.credits))), later);
      var ledgerDenies := Evaluate(w, anchor, Some(e), policy, over).deny;
      && (ledgerDenies ==> OutageDenies(t, address, local, w, anchor, limit))
      && (LedgerRehydrate.TotalCharged(later, address, local) == 0 ==>
            (OutageDenies(t, address, local, w, anchor, limit) <==>
             || ledgerDenies
             || LedgerRehydrate.Used(s.slots, address, local) >= limit
             || LedgerRehydrate.LargestRead(later, address, local) >= limit))
  {
    var read := LedgerRehydrate.Read(address, local, LedgerRehydrate.Committed(e.committed.credits));
    LedgerRehydrate.StepKeepsNonNegative(s, read);
    SeededCounterAgreesWithGate(s.slots, address, local, w, anchor, e, limit, policy, over);
    LedgerRehydrate.ReadsNeverAddUp(LedgerRehydrate.Apply(s, read), later, address, local);
    LedgerRehydrate.SinceIsPart(later, address, local);
    hide Comparable;
    assert LedgerRehydrate.Apply(s, read).slots == LedgerRehydrate.Seed(s.slots, address, local, e.committed.credits);
    hide LedgerRehydrate.Apply, LedgerRehydrate.ApplyAll, LedgerRehydrate.Since, LedgerRehydrate.LargestRead,
      LedgerRehydrate.TotalCharged,
         LedgerRehydrate.Displaced, LedgerRehydrate.Used, LedgerRehydrate.Seed, LedgerRehydrate.NonNegative;
  }

  /** evaluateKDegradePolicy: how the rehydration cap is answered. */
  function EvaluateKDegrade(policy: Policy): (bool, Source) {
    match policy
    case FailOpen => (false, OutagePolicy)
    case FailClosed => (true, OutagePolicy)
    case BoundedK => (true, KDegrade)
  }

  /** An unreachable ledger is treated the same by both gates: the cap denies exactly when the credit gate
      would deny an over-budget address during an outage. */
  lemma DegradeAgreesWithOutage(policy: Policy, w: BudgetWindow, anchor: Option<int>)
    requires !(w.WeekWindow? && anchor.None?)
    ensures EvaluateKDegrade(policy).0 == Evaluate(w, anchor, None, policy, true).deny
  {
  }
}
