/** What closing means: in every interleaving a receipt tells the truth about a stored version, and a close, and a
    forward, that runs alone does what its inputs call for. */
module HomeMirrorClosing {
  import opened Optional
  import opened HomeMirror
  import opened HomeMirrorIssuance
  import HomeMirrorSafety

  // ---- Receipts tell the truth --------------------------------------------------------------------

  /** An upsert that reports no change returns the record it was given. */
  ghost predicate Truthful(u: Upsert) {
    forall record, patch, now, result :: u(record, patch, now) == Some(Upserted(false, result)) ==> result == record
  }

  /** The selections that the response log has offered so far. */
  function Chosen(acts: seq<Act>): set<Selection> {
    set act | act in acts && act.Go? && act.answer.choice.Some? :: act.answer.choice.value
  }

  /** The version of a key is a record with this card. */
  predicate CardVersion(w: World, key: Key, card: nat, etag: nat) {
    && etag < |w.history| && w.history[etag].key == key
    && w.history[etag].bytes.Json? && w.history[etag].bytes.cardUuid == Some(card)
  }

  /** At some time the patch led from the record of a version to this outcome. */
  ghost predicate Outcome(u: Upsert, w: World, etag: nat, patch: nat, outcome: Upserted) {
    && etag < |w.history| && w.history[etag].bytes.Json?
    && exists now :: u(w.history[etag].bytes.record, patch, now) == Some(outcome)
  }

  /** The receipt names two versions of the binding's key with the binding's card: the closed one is the examined
      one with a patch applied that was selected together with the receipt's response, and has its status. */
  ghost predicate ReceiptTrue(u: Upsert, w: World, chosen: set<Selection>, b: Binding, r: Receipt) {
    && CardVersion(w, b.key, b.identity.card, r.expectedETag) && CardVersion(w, b.key, b.identity.card, r.closedETag)
    && w.history[r.closedETag].bytes.record.status == r.status
    && exists patch, changed ::
         && Selection(r.responseId, patch) in chosen
         && Outcome(u, w, r.expectedETag, patch, Upserted(changed, w.history[r.closedETag].bytes.record))
         && (!changed ==> r.closedETag == r.expectedETag)
  }

  ghost predicate SeenTrue(u: Upsert, w: World, chosen: set<Selection>, seen: Row) {
    seen.receipt.Some? ==> ReceiptTrue(u, w, chosen, seen.binding, seen.receipt.value)
  }

  /** The receipt is true of the binding that its row holds. */
  ghost predicate TrueOfRow(u: Upsert, w: World, chosen: set<Selection>, rk: RowKey, r: Receipt) {
    rk in w.db && ReceiptTrue(u, w, chosen, w.db[rk].binding, r)
  }

  ghost predicate PlanTrue(u: Upsert, w: World, chosen: set<Selection>, seen: Row, plan: Plan) {
    && plan.selection in chosen && SeenTrue(u, w, chosen, seen)
    && CardVersion(w, seen.binding.key, seen.binding.identity.card, plan.expectedETag)
    && Outcome(u, w, plan.expectedETag, plan.selection.patch, plan.outcome)
  }

  ghost predicate CloserTrue(u: Upsert, w: World, chosen: set<Selection>, c: Closer) {
    match c
    case Deciding(_, seen) => SeenTrue(u, w, chosen, seen)
    case Examining(_, seen, _, sel) => sel in chosen && SeenTrue(u, w, chosen, seen)
    case Permitting(_, seen, plan) => PlanTrue(u, w, chosen, seen, plan)
    case Patching(_, seen, plan) => PlanTrue(u, w, chosen, seen, plan) && plan.outcome.changed
    case Verifying(_, seen, plan) => PlanTrue(u, w, chosen, seen, plan) && plan.outcome.changed
    case Recording(rk, _, r) => TrueOfRow(u, w, chosen, rk, r)
    case Reloading(rk, r) => TrueOfRow(u, w, chosen, rk, r)
    case Closed(rk, result) => result.Some? ==> TrueOfRow(u, w, chosen, rk, result.value)
    case _ => true
  }

  /** The row that a close works on. */
  predicate OnRow(c: Closer, rk: RowKey) {
    match c
    case Loading(row) => row == rk
    case Deciding(row, _) => row == rk
    case Examining(row, _, _, _) => row == rk
    case Permitting(row, _, _) => row == rk
    case Patching(row, _, _) => row == rk
    case Verifying(row, _, _) => row == rk
    case Recording(row, _, _) => row == rk
    case Reloading(row, _) => row == rk
    case Closed(row, _) => row == rk
    case Failed => true
  }

  ghost predicate ProcTrue(u: Upsert, w: World, chosen: set<Selection>, q: Proc) {
    match q
    case Closing(c) => CloserTrue(u, w, chosen, c)
    case ClosingFirst(b, _, c) => OnRow(c, RowOf(b)) && CloserTrue(u, w, chosen, c)
    case HeadChecking(b, _, r) => TrueOfRow(u, w, chosen, RowOf(b), r)
    case CardChecking(b, _, r) => r.Some? ==> TrueOfRow(u, w, chosen, RowOf(b), r.value)
    case Delivering(b, _, r) => r.Some? ==> TrueOfRow(u, w, chosen, RowOf(b), r.value)
    case _ => true
  }

  ghost predicate RowTrue(u: Upsert, w: World, chosen: set<Selection>, rk: RowKey) {
    rk in w.db ==> SeenTrue(u, w, chosen, w.db[rk])
  }

  ghost predicate DeliveryTrue(u: Upsert, w: World, chosen: set<Selection>, d: Delivery) {
    d.receipt.Some? ==> TrueOfRow(u, w, chosen, d.row, d.receipt.value)
  }

  ghost predicate AllTrue(u: Upsert, s: State, chosen: set<Selection>) {
    && (forall rk :: rk in s.world.db ==> RowTrue(u, s.world, chosen, rk))
    && (forall p :: p in s.procs ==> ProcTrue(u, s.world, chosen, s.procs[p]))
    && forall d :: d in s.world.deliveries ==> DeliveryTrue(u, s.world, chosen, d)
  }

  // ---- Truth stays true ---------------------------------------------------------------------------

  lemma ReceiptStays(u: Upsert, w: World, w': World, chosen: set<Selection>, chosen': set<Selection>, b: Binding,
      r: Receipt)
    requires Extends(w, w') && chosen <= chosen' && ReceiptTrue(u, w, chosen, b, r)
    ensures ReceiptTrue(u, w', chosen', b, r)
  {
    assert w'.history[r.expectedETag] == w.history[r.expectedETag]
      && w'.history[r.closedETag] == w.history[r.closedETag];
    var patch, changed :| Selection(r.responseId, patch) in chosen
      && Outcome(u, w, r.expectedETag, patch, Upserted(changed, w.history[r.closedETag].bytes.record))
      && (!changed ==> r.closedETag == r.expectedETag);
    assert Selection(r.responseId, patch) in chosen';
    assert Outcome(u, w', r.expectedETag, patch, Upserted(changed, w'.history[r.closedETag].bytes.record));
  }

  lemma SeenStays(u: Upsert, w: World, w': World, chosen: set<Selection>, chosen': set<Selection>, seen: Row)
    requires Extends(w, w') && chosen <= chosen' && SeenTrue(u, w, chosen, seen)
    ensures SeenTrue(u, w', chosen', seen)
  {
    if seen.receipt.Some? { ReceiptStays(u, w, w', chosen, chosen', seen.binding, seen.receipt.value); }
  }

  lemma OfRowStays(u: Upsert, w: World, w': World, chosen: set<Selection>, chosen': set<Selection>, rk: RowKey,
      r: Receipt)
    requires Extends(w, w') && chosen <= chosen' && TrueOfRow(u, w, chosen, rk, r)
    ensures TrueOfRow(u, w', chosen', rk, r)
  {
    ReceiptStays(u, w, w', chosen, chosen', w.db[rk].binding, r);
  }

  lemma PlanStays(u: Upsert, w: World, w': World, chosen: set<Selection>, chosen': set<Selection>, seen: Row,
      plan: Plan)
    requires Extends(w, w') && chosen <= chosen' && PlanTrue(u, w, chosen, seen, plan)
    ensures PlanTrue(u, w', chosen', seen, plan)
  {
    hide ReceiptTrue;
    SeenStays(u, w, w', chosen, chosen', seen);
    assert w'.history[plan.expectedETag] == w.history[plan.expectedETag];
  }

  lemma CloserStays(u: Upsert, w: World, w': World, chosen: set<Selection>, chosen': set<Selection>, c: Closer)
    requires Extends(w, w') && chosen <= chosen' && CloserTrue(u, w, chosen, c)
    ensures CloserTrue(u, w', chosen', c)
  {
    hide TrueOfRow, SeenTrue, PlanTrue, Extends;
    match c
    case Deciding(_, seen) => SeenStays(u, w, w', chosen, chosen', seen);
    case Examining(_, seen, _, sel) => SeenStays(u, w, w', chosen, chosen', seen);
    case Permitting(_, seen, plan) => PlanStays(u, w, w', chosen, chosen', seen, plan);
    case Patching(_, seen, plan) => PlanStays(u, w, w', chosen, chosen', seen, plan);
    case Verifying(_, seen, plan) => PlanStays(u, w, w', chosen, chosen', seen, plan);
    case Recording(rk, _, r) => OfRowStays(u, w, w', chosen, chosen', rk, r);
    case Reloading(rk, r) => OfRowStays(u, w, w', chosen, chosen', rk, r);
    case Closed(rk, result) => if result.Some? { OfRowStays(u, w, w', chosen, chosen', rk, result.value); }
    case _ =>
  }

  lemma ProcStays(u: Upsert, w: World, w': World, chosen: set<Selection>, chosen': set<Selection>, q: Proc)
    requires Extends(w, w') && chosen <= chosen' && ProcTrue(u, w, chosen, q)
    ensures ProcTrue(u, w', chosen', q)
  {
    hide TrueOfRow, CloserTrue, OnRow, Extends;
    match q
    case Closing(c) => CloserStays(u, w, w', chosen, chosen', c);
    case ClosingFirst(b, _, c) => CloserStays(u, w, w', chosen, chosen', c);
    case HeadChecking(b, _, r) => OfRowStays(u, w, w', chosen, chosen', RowOf(b), r);
    case CardChecking(b, _, r) => if r.Some? { OfRowStays(u, w, w', chosen, chosen', RowOf(b), r.value); }
    case Delivering(b, _, r) => if r.Some? { OfRowStays(u, w, w', chosen, chosen', RowOf(b), r.value); }
    case _ =>
  }

  // ---- Every step of a close keeps it true --------------------------------------------------------

  lemma ExamineTrue(u: Upsert, w: World, chosen: set<Selection>, rk: RowKey, seen: Row, record: Record,
      sel: Selection, now: nat)
    requires WorldOk(w) && RowSeen(w, rk, seen) && sel in chosen && SeenTrue(u, w, chosen, seen)
    ensures CloserTrue(u, w, chosen, Examine(u, w, rk, seen, record, sel, now))
  {
    hide ReceiptTrue, RowOk, WriteOk, OneOwnerPerKey;
    var c := Examine(u, w, rk, seen, record, sel, now);
    if c.Permitting? {
      assert u(w.history[c.plan.expectedETag].bytes.record, sel.patch, now) == Some(c.plan.outcome);
    }
  }

  /** The receipt of a plan, for a version that holds the plan's outcome. */
  lemma PlanReceiptTrue(u: Upsert, w: World, chosen: set<Selection>, seen: Row, plan: Plan, closed: nat, now: nat)
    requires PlanTrue(u, w, chosen, seen, plan) && CardVersion(w, seen.binding.key, seen.binding.identity.card, closed)
    requires w.history[closed].bytes.record == plan.outcome.record
    requires !plan.outcome.changed ==> closed == plan.expectedETag
    ensures ReceiptTrue(u, w, chosen, seen.binding, ReceiptFor(plan, closed, now))
  {
    assert Selection(plan.selection.responseId, plan.selection.patch) == plan.selection;
    assert Upserted(plan.outcome.changed, w.history[closed].bytes.record) == plan.outcome;
  }

  lemma UnchangedIsGiven(u: Upsert, w: World, etag: nat, patch: nat, outcome: Upserted)
    requires Truthful(u) && Outcome(u, w, etag, patch, outcome) && !outcome.changed
    ensures outcome.record == w.history[etag].bytes.record
  {
    var now :| u(w.history[etag].bytes.record, patch, now) == Some(outcome);
    assert u(w.history[etag].bytes.record, patch, now) == Some(Upserted(false, outcome.record));
  }

  ghost predicate StepTrue(u: Upsert, w: World, chosen: set<Selection>, c: Closer, a: Answer) {
    var r := CloseStep(u, w, c, a);
    Extends(w, r.0) ==> CloserTrue(u, r.0, chosen, r.1)
  }

  /** Up to the decision to put. */
  lemma PlanningTrue(u: Upsert, w: World, chosen: set<Selection>, c: Closer, a: Answer)
    requires Truthful(u) && WorldOk(w) && CloserOk(w, c) && CloserTrue(u, w, chosen, c)
    requires forall rk :: rk in w.db ==> RowTrue(u, w, chosen, rk)
    requires a.choice.Some? ==> a.choice.value in chosen
    requires c.Loading? || c.Deciding? || c.Examining? || c.Permitting?
    ensures StepTrue(u, w, chosen, c, a)
  {
    hide ReceiptTrue, Truthful, Examine, WriteOk, OneOwnerPerKey, Outcome, Extends;
    match c
    case Loading(rk) => if rk in w.db { assert RowTrue(u, w, chosen, rk); }
    case Examining(rk, seen, record, sel) => ExamineTrue(u, w, chosen, rk, seen, record, sel, a.now);
    case Permitting(rk, seen, plan) =>
      if !plan.outcome.changed {
        UnchangedIsGiven(u, w, plan.expectedETag, plan.selection.patch, plan.outcome);
        PlanReceiptTrue(u, w, chosen, seen, plan, plan.expectedETag, a.now);
      }
    case _ =>
  }

  /** The put and the read-back. */
  lemma PuttingTrue(u: Upsert, w: World, chosen: set<Selection>, c: Closer, a: Answer)
    requires WorldOk(w) && CloserOk(w, c) && CloserTrue(u, w, chosen, c) && (c.Patching? || c.Verifying?)
    ensures StepTrue(u, w, chosen, c, a)
  {
    hide ReceiptTrue, WriteOk, OneOwnerPerKey, Outcome, Extends, StoreBytes;
    var r := CloseStep(u, w, c, a);
    if c.Patching? {
      if Extends(w, r.0) { PlanStays(u, w, r.0, chosen, chosen, c.seen, c.plan); }
    } else if r.1.Recording? {
      assert RowSeen(w, c.row, c.seen);
      PlanReceiptTrue(u, w, chosen, c.seen, c.plan, w.kv[c.seen.binding.key], a.now);
    }
  }

  /** Recording the receipt and reading it back. */
  lemma RecordingTrue(u: Upsert, w: World, chosen: set<Selection>, c: Closer, a: Answer)
    requires CloserTrue(u, w, chosen, c)
    requires c.Recording? || c.Reloading? || c.Closed? || c.Failed?
    ensures StepTrue(u, w, chosen, c, a)
  {
    hide ReceiptTrue, Extends;
    var r := CloseStep(u, w, c, a);
    if c.Recording? && Extends(w, r.0) { OfRowStays(u, w, r.0, chosen, chosen, c.row, c.receipt); }
  }

  lemma CloserStepTrue(u: Upsert, w: World, chosen: set<Selection>, c: Closer, a: Answer)
    requires Truthful(u) && WorldOk(w) && CloserOk(w, c) && CloserTrue(u, w, chosen, c)
    requires forall rk :: rk in w.db ==> RowTrue(u, w, chosen, rk)
    requires a.choice.Some? ==> a.choice.value in chosen
    ensures StepTrue(u, w, chosen, c, a)
  {
    hide StepTrue, CloserTrue, CloserOk, WorldOk, RowTrue, Truthful;
    if c.Patching? || c.Verifying? { PuttingTrue(u, w, chosen, c, a); }
    else if c.Loading? || c.Deciding? || c.Examining? || c.Permitting? { PlanningTrue(u, w, chosen, c, a); }
    else { RecordingTrue(u, w, chosen, c, a); }
  }

  lemma CloserStaysOnRow(u: Upsert, w: World, c: Closer, a: Answer, rk: RowKey)
    requires OnRow(c, rk)
    ensures OnRow(CloseStep(u, w, c, a).1, rk)
  {
    hide ReadLegacy, StoreBytes;
  }

  /** The receipts stored by one step of a close: those stored before, or the one it was recording. */
  lemma CloserRowsTrue(u: Upsert, w: World, chosen: set<Selection>, c: Closer, a: Answer)
    requires CloserTrue(u, w, chosen, c) && Extends(w, CloseStep(u, w, c, a).0)
    requires forall rk :: rk in w.db ==> RowTrue(u, w, chosen, rk)
    ensures forall rk :: rk in CloseStep(u, w, c, a).0.db ==> RowTrue(u, CloseStep(u, w, c, a).0, chosen, rk)
  {
    hide ReceiptTrue, Extends, ReadLegacy, Examine;
    var w' := CloseStep(u, w, c, a).0;
    forall rk | rk in w'.db ensures RowTrue(u, w', chosen, rk) {
      assert rk in w.db && RowTrue(u, w, chosen, rk);
      if c.Recording? && c.row == rk { OfRowStays(u, w, w', chosen, chosen, rk, c.receipt); }
      SeenStays(u, w, w', chosen, chosen, w.db[rk]);
    }
  }

  // ---- Every act keeps it true --------------------------------------------------------------------

  ghost predicate RowsTrue(u: Upsert, w: World, chosen: set<Selection>) {
    forall rk :: rk in w.db ==> RowTrue(u, w, chosen, rk)
  }

  lemma RowsStay(u: Upsert, w: World, w': World, chosen: set<Selection>, chosen': set<Selection>)
    requires Extends(w, w') && chosen <= chosen' && RowsTrue(u, w, chosen)
    requires forall rk :: rk in w'.db ==> w'.db[rk].receipt.None? || (rk in w.db && w.db[rk] == w'.db[rk])
    ensures RowsTrue(u, w', chosen')
  {
    hide ReceiptTrue, Extends;
    forall rk | rk in w'.db ensures RowTrue(u, w', chosen', rk) {
      if w'.db[rk].receipt.Some? {
        assert RowTrue(u, w, chosen, rk);
        SeenStays(u, w, w', chosen, chosen', w.db[rk]);
      }
    }
  }

  lemma PublishRows(w: World, q: Publisher, a: Answer)
    ensures var w' := PublishStep(w, q, a).0;
            && (forall rk :: rk in w'.db ==> w'.db[rk].receipt.None? || (rk in w.db && w.db[rk] == w'.db[rk]))
            && w'.deliveries == w.deliveries
  {
    hide Refuses, ReadLegacy, AfterFirstRead;
  }

  lemma CloseDeliversNothing(u: Upsert, w: World, c: Closer, a: Answer)
    ensures CloseStep(u, w, c, a).0.deliveries == w.deliveries
  {
    hide Examine, ReadLegacy;
  }

  lemma ProcStepTrue(u: Upsert, w: World, chosen: set<Selection>, q: Proc, a: Answer)
    requires Truthful(u) && WorldOk(w) && ProcOk(w, q) && ProcTrue(u, w, chosen, q) && RowsTrue(u, w, chosen)
    requires a.choice.Some? ==> a.choice.value in chosen
    ensures var r := ProcStep(u, w, q, a); RowsTrue(u, r.0, chosen) && ProcTrue(u, r.0, chosen, r.1)
  {
    hide RowTrue, TrueOfRow, CloseStep, PublishStep, CloserOk, PublisherOk, WorldOk, Truthful;
    ProcStepKeeps(u, w, q, a);
    var r := ProcStep(u, w, q, a);
    match q
    case Publishing(p) => PublishRows(w, p, a); RowsStay(u, w, r.0, chosen, chosen);
    case Closing(c) => CloserStepTrue(u, w, chosen, c, a); CloserRowsTrue(u, w, chosen, c, a);
    case Finding(rk, response) => FindingTrue(u, w, chosen, rk, response, a);
    case ClosingFirst(b, response, c) => ClosingFirstTrue(u, w, chosen, b, response, c, a);
    case Delivering(b, response, receipt) => RowsStay(u, w, r.0, chosen, chosen);
    case _ =>
  }

  lemma FindingTrue(u: Upsert, w: World, chosen: set<Selection>, rk: RowKey, response: Response, a: Answer)
    requires WorldOk(w) && RowsTrue(u, w, chosen)
    ensures ProcTrue(u, w, chosen, ProcStep(u, w, Finding(rk, response), a).1)
  {
    if rk in w.db { assert RowOk(w, rk); }
  }

  lemma ClosingFirstTrue(u: Upsert, w: World, chosen: set<Selection>, b: Binding, response: Response, c: Closer,
      a: Answer)
    requires Truthful(u) && WorldOk(w) && CloserOk(w, c) && ProcTrue(u, w, chosen, ClosingFirst(b, response, c))
    requires RowsTrue(u, w, chosen) && Extends(w, ProcStep(u, w, ClosingFirst(b, response, c), a).0)
    requires a.choice.Some? ==> a.choice.value in chosen
    ensures
      var r := ProcStep(u, w, ClosingFirst(b, response, c), a);
      RowsTrue(u, r.0, chosen) && ProcTrue(u, r.0, chosen, r.1)
  {
    hide RowTrue, TrueOfRow, CloseStep, CloserOk, WorldOk, Truthful, Extends;
    if !c.Closed? && !c.Failed? {
      CloserStepTrue(u, w, chosen, c, a);
      CloserRowsTrue(u, w, chosen, c, a);
      CloserStaysOnRow(u, w, c, a, RowOf(b));
    }
  }

  lemma DeliveriesTrue(u: Upsert, w: World, chosen: set<Selection>, q: Proc, a: Answer)
    requires ProcTrue(u, w, chosen, q) && forall d :: d in w.deliveries ==> DeliveryTrue(u, w, chosen, d)
    ensures forall d :: d in ProcStep(u, w, q, a).0.deliveries ==> DeliveryTrue(u, w, chosen, d)
  {
    hide TrueOfRow, CloseStep, PublishStep;
    match q
    case Publishing(p) => PublishRows(w, p, a);
    case Closing(c) => CloseDeliversNothing(u, w, c, a);
    case ClosingFirst(_, _, c) => CloseDeliversNothing(u, w, c, a);
    case _ =>
  }

  lemma DeliveriesStay(u: Upsert, w: World, w': World, chosen: set<Selection>, chosen': set<Selection>, d: Delivery)
    requires Extends(w, w') && chosen <= chosen' && DeliveryTrue(u, w, chosen, d)
    ensures DeliveryTrue(u, w', chosen', d)
  {
    hide TrueOfRow, Extends;
    if d.receipt.Some? { OfRowStays(u, w, w', chosen, chosen', d.row, d.receipt.value); }
  }

  lemma ChosenGrows(acts: seq<Act>, act: Act)
    ensures Chosen(acts) <= Chosen(acts + [act])
    ensures act.Go? && act.answer.choice.Some? ==> act.answer.choice.value in Chosen(acts + [act])
  {
    forall sel | sel in Chosen(acts) ensures sel in Chosen(acts + [act]) {
      var b :| b in acts && b.Go? && b.answer.choice.Some? && b.answer.choice.value == sel;
      assert b in acts + [act];
    }
    assert act in acts + [act];
  }

  lemma NextTrue(u: Upsert, s: State, act: Act, chosen: set<Selection>, chosen': set<Selection>)
    requires Truthful(u) && Inv(s) && AllTrue(u, s, chosen) && chosen <= chosen'
    requires act.Go? && act.answer.choice.Some? ==> act.answer.choice.value in chosen'
    ensures AllTrue(u, Next(u, s, act), chosen')
  {
    NextKeeps(u, s, act);
    var s' := Next(u, s, act);
    hide Inv, RowTrue, ProcTrue, DeliveryTrue, Extends, Truthful;
    NextRows(u, s, act, chosen, chosen');
    forall p | p in s'.procs ensures ProcTrue(u, s'.world, chosen', s'.procs[p]) {
      NextProc(u, s, act, chosen, chosen', p);
    }
    forall d | d in s'.world.deliveries ensures DeliveryTrue(u, s'.world, chosen', d) {
      NextDelivery(u, s, act, chosen, chosen', d);
    }
  }

  lemma NowChosen(u: Upsert, s: State, chosen: set<Selection>, chosen': set<Selection>)
    requires AllTrue(u, s, chosen) && chosen <= chosen'
    ensures AllTrue(u, s, chosen')
  {
    hide RowTrue, ProcTrue, DeliveryTrue;
    var w := s.world;
    assert Extends(w, w);
    forall rk | rk in w.db ensures RowTrue(u, w, chosen', rk) {
      assert RowTrue(u, w, chosen, rk);
      SeenNowChosen(u, w, chosen, chosen', rk);
    }
    forall p | p in s.procs ensures ProcTrue(u, w, chosen', s.procs[p]) {
      ProcStays(u, w, w, chosen, chosen', s.procs[p]);
    }
    forall d | d in w.deliveries ensures DeliveryTrue(u, w, chosen', d) { DeliveriesStay(u, w, w, chosen, chosen', d); }
  }

  lemma SeenNowChosen(u: Upsert, w: World, chosen: set<Selection>, chosen': set<Selection>, rk: RowKey)
    requires rk in w.db && chosen <= chosen' && RowTrue(u, w, chosen, rk)
    ensures RowTrue(u, w, chosen', rk)
  {
    assert Extends(w, w);
    SeenStays(u, w, w, chosen, chosen', w.db[rk]);
  }

  lemma NextRows(u: Upsert, s: State, act: Act, chosen: set<Selection>, chosen': set<Selection>)
    requires Truthful(u) && Inv(s) && AllTrue(u, s, chosen) && chosen <= chosen'
      && Extends(s.world, Next(u, s, act).world)
    requires act.Go? && act.answer.choice.Some? ==> act.answer.choice.value in chosen'
    ensures forall rk :: rk in Next(u, s, act).world.db ==> RowTrue(u, Next(u, s, act).world, chosen', rk)
  {
    hide RowTrue, ProcTrue, DeliveryTrue, Extends, Truthful, ProcStep, ProcOk, WorldOk;
    NowChosen(u, s, chosen, chosen');
    assert RowsTrue(u, s.world, chosen');
    if act.Go? {
      if act.p in s.procs { ProcStepTrue(u, s.world, chosen', s.procs[act.p], act.answer); }
    } else {
      RowsStay(u, s.world, Next(u, s, act).world, chosen', chosen');
    }
  }

  lemma NextProc(u: Upsert, s: State, act: Act, chosen: set<Selection>, chosen': set<Selection>, p: nat)
    requires Truthful(u) && Inv(s) && AllTrue(u, s, chosen) && chosen <= chosen'
      && Extends(s.world, Next(u, s, act).world)
    requires act.Go? && act.answer.choice.Some? ==> act.answer.choice.value in chosen'
    requires p in Next(u, s, act).procs
    ensures ProcTrue(u, Next(u, s, act).world, chosen', Next(u, s, act).procs[p])
  {
    hide RowTrue, DeliveryTrue, Extends, Truthful, ProcStep, ProcOk, WorldOk, CloserTrue, TrueOfRow;
    NowChosen(u, s, chosen, chosen');
    assert RowsTrue(u, s.world, chosen');
    if act.Go? && act.p == p {
      ProcStepTrue(u, s.world, chosen', s.procs[p], act.answer);
    } else if p in s.procs && Next(u, s, act).procs[p] == s.procs[p] {
      ProcStays(u, s.world, Next(u, s, act).world, chosen, chosen', s.procs[p]);
    } else {
      BeginsTrue(u, Next(u, s, act).world, chosen', Next(u, s, act).procs[p]);
    }
  }

  lemma BeginsTrue(u: Upsert, w: World, chosen: set<Selection>, q: Proc)
    requires q.Publishing? || q.Finding? || (q.Closing? && q.closer.Loading?)
    ensures ProcTrue(u, w, chosen, q)
  {
  }

  lemma NextDelivery(u: Upsert, s: State, act: Act, chosen: set<Selection>, chosen': set<Selection>, d: Delivery)
    requires AllTrue(u, s, chosen) && chosen <= chosen' && Extends(s.world, Next(u, s, act).world)
    requires d in Next(u, s, act).world.deliveries
    ensures DeliveryTrue(u, Next(u, s, act).world, chosen', d)
  {
    hide RowTrue, DeliveryTrue, Extends, ProcStep, ProcTrue;
    if act.Go? && act.p in s.procs { DeliveriesTrue(u, s.world, chosen, s.procs[act.p], act.answer); }
    DeliveriesStay(u, s.world, Next(u, s, act).world, chosen, chosen', d);
  }

  /** In every run, with whatever interleaves, every receipt that is stored, being recorded, returned, awaiting its
      delivery or delivered is true. */
  lemma {:induction false} EverythingIsTrue(u: Upsert, acts: seq<Act>)
    requires Truthful(u)
    ensures AllTrue(u, Exec(u, acts), Chosen(acts))
  {
    if acts != [] {
      var before, act := acts[..|acts| - 1], acts[|acts| - 1];
      assert acts == before + [act];
      EverythingIsTrue(u, before);
      Reachable(u, before);
      ChosenGrows(before, act);
      hide AllTrue, Truthful, Inv;
      NextTrue(u, Exec(u, before), act, Chosen(before), Chosen(acts));
    }
  }

  /** In every run a stored receipt is true: it names two stored versions of its binding's key that carry the
      binding's card, and the closed one is the examined one with a patch applied that was selected for the
      receipt's response, with the receipt's status. The closed version is a new one if the patch changed
      anything. */
  lemma ReceiptsAreTrue(u: Upsert, acts: seq<Act>, rk: RowKey)
    requires Truthful(u) && rk in Exec(u, acts).world.db && Exec(u, acts).world.db[rk].receipt.Some?
    ensures
      var s := Exec(u, acts);
      var b, r := s.world.db[rk].binding, s.world.db[rk].receipt.value;
      var h := s.world.history;
      && r.expectedETag < |h| && r.closedETag < |h|
      && h[r.expectedETag].key == b.key == h[r.closedETag].key
      && h[r.expectedETag].bytes.Json? && h[r.closedETag].bytes.Json?
      && h[r.expectedETag].bytes.cardUuid == Some(b.identity.card) == h[r.closedETag].bytes.cardUuid
      && h[r.closedETag].bytes.record.status == r.status
      && exists patch, changed ::
           && Selection(r.responseId, patch) in Chosen(acts)
           && Outcome(u, s.world, r.expectedETag, patch, Upserted(changed, h[r.closedETag].bytes.record))
           && (!changed ==> r.closedETag == r.expectedETag)
  {
    EverythingIsTrue(u, acts);
    assert RowTrue(u, Exec(u, acts).world, Chosen(acts), rk);
  }

  /** In every run a closing delivery went out with a true receipt for its response. */
  lemma DeliveredReceiptsAreTrue(u: Upsert, acts: seq<Act>, d: nat)
    requires Truthful(u) && d < |Exec(u, acts).world.deliveries| && Exec(u, acts).world.deliveries[d].response.closes
    ensures
      var w := Exec(u, acts).world;
      var del := w.deliveries[d];
      && del.row in w.db && del.receipt.Some? && del.receipt.value.responseId == del.response.id
      && ReceiptTrue(u, w, Chosen(acts), w.db[del.row].binding, del.receipt.value)
  {
    EverythingIsTrue(u, acts);
    HomeMirrorSafety.DeliveryIsPrecededByReceipt(u, acts);
    var w := Exec(u, acts).world;
    assert HomeMirrorSafety.DeliveryPast(u, acts, w.deliveries[d]);
    assert w.deliveries[d] in w.deliveries;
    assert DeliveryTrue(u, w, Chosen(acts), w.deliveries[d]);
  }

  // ---- Closing alone ------------------------------------------------------------------------------

  /** A close that runs alone for n awaits, with the same answer at each. */
  function CloseAlone(u: Upsert, w: World, c: Closer, a: Answer, n: nat): (World, Closer)
    decreases n
  {
    if n == 0 then (w, c) else var r := CloseStep(u, w, c, a); CloseAlone(u, r.0, r.1, a, n - 1)
  }

  /** The environment grants everything and offers one response and its patch; `a.record` is the current card's. */
  predicate Grants(a: Answer) { a.ok && !a.lost && a.choice.Some? }

  /** The current card still reproduces the published bytes. */
  predicate CardIsCurrent(b: Binding, a: Answer) { b.publication == Json(a.record, Some(b.identity.card), 0) }

  /** The head is the binding's own: readable, with its card and its id. */
  predicate OwnHead(w: World, b: Binding, etag: nat, bytes: Bytes) {
    HeadIs(w, b.key, etag, bytes) && bytes.cardUuid == Some(b.identity.card) && bytes.record.id == b.key.id
  }

  /** The head was closed for this very response before. */
  predicate ClosedBefore(row: Row, etag: nat, responseId: nat) {
    row.receipt.Some? && row.receipt.value.closedETag == etag && row.receipt.value.responseId == responseId
  }

  /** The close may go on from this head: it is the published version, or it holds the published record with the
      patch applied as of its own time, or it is the version of the last receipt, with its status. */
  predicate MayClose(u: Upsert, row: Row, etag: nat, bytes: Bytes, a: Answer)
    requires a.choice.Some? && bytes.Json?
  {
    var b := row.binding;
    if bytes == b.publication then etag == b.publishedETag
    else
      || (row.receipt.Some? && row.receipt.value.closedETag == etag && row.receipt.value.status == bytes.record.status)
      || (var e := u(a.record, a.choice.value.patch, bytes.record.updatedAt);
          e.Some? && bytes == Json(e.value.record, Some(b.identity.card), 0))
  }

  /** The world with a receipt in the row. */
  function WithReceipt(w: World, rk: RowKey, r: Receipt): World
    requires rk in w.db
  {
    w.(db := w.db[rk := Row(w.db[rk].binding, Some(r))])
  }

  /** The world with the patched record at the head. */
  function WithPatched(w: World, rk: RowKey, record: Record): World
    requires rk in w.db && w.db[rk].binding.key in w.kv
  {
    var b := w.db[rk].binding;
    var put := Write(b.key, Json(record, Some(b.identity.card), 0), CloserOf(rk), Some(w.kv[b.key]));
    w.(kv := w.kv[b.key := |w.history|], history := w.history + [put])
  }

  /** What a close of a row leads to from a head that it may close. */
  function Close(u: Upsert, w: World, rk: RowKey, a: Answer): (World, Closer)
    requires rk in w.db && w.db[rk].binding.key in w.kv && w.kv[w.db[rk].binding.key] < |w.history|
    requires a.choice.Some? && w.history[w.kv[w.db[rk].binding.key]].bytes.Json?
  {
    var key := w.db[rk].binding.key;
    var etag := w.kv[key];
    match u(w.history[etag].bytes.record, a.choice.value.patch, a.now)
    case None => (w, Failed)
    case Some(planned) =>
      if planned.changed then
        var r := Receipt(a.choice.value.responseId, etag, |w.history|, planned.record.status, a.now);
        if planned.record.kind == key.kind
        then (WithReceipt(WithPatched(w, rk, planned.record), rk, r), Closed(rk, Some(r)))
        else (WithPatched(w, rk, planned.record), Failed)
      else
        var r := Receipt(a.choice.value.responseId, etag, etag, planned.record.status, a.now);
        (WithReceipt(w, rk, r), Closed(rk, Some(r)))
  }

  lemma {:induction false} UnrollClose(u: Upsert, w: World, c: Closer, a: Answer, n: nat)
    requires n > 0
    ensures CloseAlone(u, w, c, a, n) == CloseAlone(u, CloseStep(u, w, c, a).0, CloseStep(u, w, c, a).1, a, n - 1)
  {
  }

  lemma {:induction false} StaysClosed(u: Upsert, w: World, c: Closer, a: Answer, n: nat)
    requires c.Closed? || c.Failed?
    ensures CloseAlone(u, w, c, a, n) == (w, c)
  {
    if n > 0 { StaysClosed(u, w, c, a, n - 1); }
  }

  /** What the examination of the head leads to. */
  function Examined(u: Upsert, w: World, rk: RowKey, a: Answer): Closer
    requires rk in w.db && a.choice.Some?
  {
    var b := w.db[rk].binding;
    if b.key !in w.kv then Closed(rk, None)
    else if w.kv[b.key] >= |w.history| then Failed
    else
      var etag, bytes := w.kv[b.key], w.history[w.kv[b.key]].bytes;
      if !HeadIs(w, b.key, etag, bytes) then Failed
      else if !OwnHead(w, b, etag, bytes) then Closed(rk, None)
      else if ClosedBefore(w.db[rk], etag, a.choice.value.responseId) then Closed(rk, w.db[rk].receipt)
      else if !MayClose(u, w.db[rk], etag, bytes, a) then Closed(rk, None)
      else
        match u(bytes.record, a.choice.value.patch, a.now)
        case None => Failed
        case Some(planned) =>
          var expected := u(a.record, a.choice.value.patch, bytes.record.updatedAt);
          Permitting(rk, w.db[rk], Plan(a.choice.value, expected, etag, planned))
  }

  lemma ExamineIs(u: Upsert, w: World, rk: RowKey, a: Answer)
    requires rk in w.db && a.choice.Some?
    ensures Examine(u, w, rk, w.db[rk], a.record, a.choice.value, a.now) == Examined(u, w, rk, a)
  {
  }

  /** Recording: two awaits. */
  lemma Records(u: Upsert, w: World, rk: RowKey, seen: Row, r: Receipt, a: Answer, n: nat)
    requires Grants(a) && rk in w.db && w.db[rk] == seen
    ensures CloseAlone(u, w, Recording(rk, seen, r), a, n + 2) == (WithReceipt(w, rk, r), Closed(rk, Some(r)))
  {
    var w' := WithReceipt(w, rk, r);
    UnrollClose(u, w, Recording(rk, seen, r), a, n + 2);
    UnrollClose(u, w', Reloading(rk, r), a, n + 1);
    StaysClosed(u, w', Closed(rk, Some(r)), a, n);
  }

  /** From a plan on: five awaits. */
  lemma Carries(u: Upsert, w: World, rk: RowKey, plan: Plan, a: Answer)
    requires Grants(a) && rk in w.db && w.db[rk].binding.key in w.kv && plan.expectedETag == w.kv[w.db[rk].binding.key]
    requires plan.selection == a.choice.value && plan.expectedETag < |w.history|
    requires w.history[plan.expectedETag].bytes.Json?
      && u(w.history[plan.expectedETag].bytes.record, a.choice.value.patch, a.now) == Some(plan.outcome)
    ensures CloseAlone(u, w, Permitting(rk, w.db[rk], plan), a, 5) == Close(u, w, rk, a)
  {
    var seen := w.db[rk];
    UnrollClose(u, w, Permitting(rk, seen, plan), a, 5);
    if plan.outcome.changed {
      Patches(u, w, rk, plan, a);
    } else {
      Records(u, w, rk, seen, ReceiptFor(plan, plan.expectedETag, a.now), a, 2);
    }
  }

  lemma Patches(u: Upsert, w: World, rk: RowKey, plan: Plan, a: Answer)
    requires Grants(a) && rk in w.db && w.db[rk].binding.key in w.kv && plan.expectedETag == w.kv[w.db[rk].binding.key]
    ensures
      var key := w.db[rk].binding.key;
      var w' := WithPatched(w, rk, plan.outcome.record);
      var r := ReceiptFor(plan, |w.history|, a.now);
      CloseAlone(u, w, Patching(rk, w.db[rk], plan), a, 4) ==
        if plan.outcome.record.kind == key.kind then (WithReceipt(w', rk, r), Closed(rk, Some(r))) else (w', Failed)
  {
    var seen, w' := w.db[rk], WithPatched(w, rk, plan.outcome.record);
    UnrollClose(u, w, Patching(rk, seen, plan), a, 4);
    assert StoreBytes(w, seen.binding.key, Publication(plan.outcome.record, seen.binding.identity.card),
      CloserOf(rk)) == w';
    UnrollClose(u, w', Verifying(rk, seen, plan), a, 3);
    if plan.outcome.record.kind == seen.binding.key.kind {
      Records(u, w', rk, seen, ReceiptFor(plan, |w.history|, a.now), a, 0);
    } else {
      StaysClosed(u, w', Failed, a, 2);
    }
  }

  /** A close that runs alone, written out: it closes the row exactly when the current card still reproduces the
      published bytes and the head is the binding's own and may be closed; then it puts the patched record if the
      patch changes anything, and stores a receipt of the version that is the head afterwards. Otherwise it
      changes nothing, and it answers the stored receipt when that is for the same response and the head. */
  lemma ClosesAlone(u: Upsert, w: World, rk: RowKey, a: Answer)
    requires Grants(a)
    ensures CloseAlone(u, w, Loading(rk), a, 8) ==
      if rk !in w.db || !CardIsCurrent(w.db[rk].binding, a) then (w, Closed(rk, None))
      else if Examined(u, w, rk, a).Permitting? then Close(u, w, rk, a)
      else (w, Examined(u, w, rk, a))
  {
    UnrollClose(u, w, Loading(rk), a, 8);
    if rk !in w.db {
      StaysClosed(u, w, Closed(rk, None), a, 7);
    } else {
      UnrollClose(u, w, Deciding(rk, w.db[rk]), a, 7);
      if !CardIsCurrent(w.db[rk].binding, a) {
        StaysClosed(u, w, Closed(rk, None), a, 6);
      } else {
        UnrollClose(u, w, Examining(rk, w.db[rk], a.record, a.choice.value), a, 6);
        ExamineIs(u, w, rk, a);
        var c := Examined(u, w, rk, a);
        if c.Permitting? { Carries(u, w, rk, c.plan, a); } else { StaysClosed(u, w, c, a, 5); }
      }
    }
  }

  /** From the published head, with a response selected whose patch changes the record: the close ends with the
      patched record at the head, a receipt that names its version, and that receipt in the row. */
  lemma ClosesPublished(u: Upsert, w: World, rk: RowKey, a: Answer, patched: Record)
    requires Grants(a) && rk in w.db && w.db[rk].receipt.None? && CardIsCurrent(w.db[rk].binding, a)
    requires var b := w.db[rk].binding;
        HeadIs(w, b.key, b.publishedETag, b.publication) && b.publication.record.id == b.key.id
    requires u(a.record, a.choice.value.patch, a.now) == Some(Upserted(true, patched))
    requires patched.kind == w.db[rk].binding.key.kind
    ensures
      var r := CloseAlone(u, w, Loading(rk), a, 8);
      && r.1.Closed? && r.1.result.Some? && rk in r.0.db && r.0.db[rk] == Row(w.db[rk].binding, r.1.result)
      && r.1.result.value.responseId == a.choice.value.responseId && r.1.result.value.status == patched.status
      && HeadIs(r.0, w.db[rk].binding.key, r.1.result.value.closedETag,
        Json(patched, Some(w.db[rk].binding.identity.card), 0))
      && r.1.result.value.closedETag == |w.history| && |r.0.history| == |w.history| + 1
  {
    ClosesAlone(u, w, rk, a);
  }
}
