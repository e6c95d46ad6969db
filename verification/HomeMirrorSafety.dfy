/** What every interleaving of publishers, closers, forwarders, legacy editors and crashes keeps. */
module HomeMirrorSafety {
  import opened Optional
  import opened HomeMirror

  // ---- Ownership and overwrites -------------------------------------------------------------------

  /** All binding rows for one legacy key name the same source and card. */
  lemma OneOwnerInEveryRun(u: Upsert, acts: seq<Act>, r1: RowKey, r2: RowKey)
    requires var db := Exec(u, acts).world.db; r1 in db && r2 in db && db[r1].binding.key == db[r2].binding.key
    ensures r1.sourceId == r2.sourceId && r1.identity.card == r2.identity.card
  {
    Reachable(u, acts);
    assert RowOk(Exec(u, acts).world, r1) && RowOk(Exec(u, acts).world, r2);
  }

  /** A publication put replaced nothing, a version already bound to the same source and card, or a
      record without card UUID and with the same business content. */
  lemma PublishReplacesOnlyItsOwn(u: Upsert, acts: seq<Act>, i: nat)
    requires var h := Exec(u, acts).world.history; i < |h| && h[i].author.PublisherOf? && h[i].replaced.Some?
    ensures
      var w := Exec(u, acts).world;
      var put := w.history[i];
      var e := put.replaced.value;
      && e < i && w.history[e].key == put.key && w.history[e].bytes.Json? && put.bytes.Json?
      && (|| (&& w.history[e].bytes.cardUuid == Some(put.author.card)
              && exists rk ::
                rk in w.db && w.db[rk].binding.publishedETag == e && w.db[rk].binding.publication == w.history[e].bytes
                              && SameOwner(w.db[rk].binding, put.author.sourceId, put.author.card))
          || (w.history[e].bytes.cardUuid == None && w.history[e].bytes.record == put.bytes.record))
  {
    Reachable(u, acts);
    var w := Exec(u, acts).world;
    var put := w.history[i];
    var e := put.replaced.value;
    assert WriteOk(w, i);
    if exists rk ::
      rk in w.db && w.db[rk].binding.publishedETag == e
      && SameOwner(w.db[rk].binding, put.author.sourceId, put.author.card) {
      var rk :| rk in w.db && w.db[rk].binding.publishedETag == e
        && SameOwner(w.db[rk].binding, put.author.sourceId, put.author.card);
      assert RowOk(w, rk);
    }
  }

  /** No publication ever replaces a version that is bound, before or after, to another source or card. */
  lemma NoForeignBoundVersionLost(u: Upsert, acts: seq<Act>, i: nat, rk: RowKey)
    requires
      var w := Exec(u, acts).world;
      && i < |w.history| && w.history[i].author.PublisherOf?
      && rk in w.db && w.history[i].replaced == Some(w.db[rk].binding.publishedETag)
    ensures
      var w := Exec(u, acts).world;
      SameOwner(w.db[rk].binding, w.history[i].author.sourceId, w.history[i].author.card)
  {
    PublishReplacesOnlyItsOwn(u, acts, i);
    Reachable(u, acts);
    var w := Exec(u, acts).world;
    var put := w.history[i];
    assert RowOk(w, rk);
    if w.history[put.replaced.value].bytes.cardUuid != None {
      var own :| own in w.db && w.db[own].binding.publishedETag == put.replaced.value
        && SameOwner(w.db[own].binding, put.author.sourceId, put.author.card);
      assert RowOk(w, own);
    }
  }

  /** The card an automated write speaks for. */
  function CardOf(author: Writer): Option<nat> {
    match author
    case Editor => None
    case PublisherOf(_, card) => Some(card)
    case CloserOf(row) => Some(row.identity.card)
  }

  /** Neither a publication nor a close for one card ever replaces a version that carries another card. */
  lemma NoOtherCardReplaced(u: Upsert, acts: seq<Act>, i: nat)
    requires var h := Exec(u, acts).world.history; i < |h| && h[i].replaced.Some? && !h[i].author.Editor?
    ensures
      var h := Exec(u, acts).world.history;
      var e := h[i].replaced.value;
      && e < i && h[e].key == h[i].key && h[e].bytes.Json?
      && (h[e].bytes.cardUuid == CardOf(h[i].author) || (h[i].author.PublisherOf? && h[e].bytes.cardUuid == None))
  {
    Reachable(u, acts);
    assert WriteOk(Exec(u, acts).world, i);
    if Exec(u, acts).world.history[i].author.PublisherOf? { PublishReplacesOnlyItsOwn(u, acts, i); }
  }

  /** A binding row never changes its binding and is never removed. */
  lemma {:induction false} BindingsAreImmutable(u: Upsert, past: seq<Act>, acts: seq<Act>, rk: RowKey)
    requires past <= acts && rk in Exec(u, past).world.db
    ensures rk in Exec(u, acts).world.db && Exec(u, acts).world.db[rk].binding == Exec(u, past).world.db[rk].binding
    decreases |acts|
  {
    if past != acts {
      var before := acts[..|acts| - 1];
      assert past <= before;
      BindingsAreImmutable(u, past, before, rk);
      Reachable(u, before);
      NextKeeps(u, Exec(u, before), acts[|acts| - 1]);
    }
  }

  // ---- Closing ------------------------------------------------------------------------------------

  function CloserIn(q: Proc): Option<Closer> {
    match q
    case Closing(c) => Some(c)
    case ClosingFirst(_, _, c) => Some(c)
    case _ => None
  }

  /** A close put that takes effect replaces exactly the head it examined, and that head is the published
      version, or already equals the selected patch applied, or is the version its last receipt recorded. */
  lemma ClosePutReplaces(u: Upsert, acts: seq<Act>, p: nat, a: Answer)
    requires
      var s := Exec(u, acts);
      && p in s.procs && CloserIn(s.procs[p]).Some? && CloserIn(s.procs[p]).value.Patching?
      && Next(u, s, Go(p, a)).world.history != s.world.history
    ensures
      var s := Exec(u, acts);
      var c := CloserIn(s.procs[p]).value;
      var b := c.seen.binding;
      var w' := Next(u, s, Go(p, a)).world;
      && b.key in s.world.kv
      && var e := s.world.kv[b.key];
      && e == c.plan.expectedETag && e < |s.world.history|
      && w'.history == s.world.history
        + [Write(b.key, Publication(c.plan.outcome.record, b.identity.card), CloserOf(c.row), Some(e))]
      && (|| (e == b.publishedETag && s.world.history[e].bytes == b.publication)
          || (c.plan.expected.Some?
            && s.world.history[e].bytes == Publication(c.plan.expected.value.record, b.identity.card))
          || (c.seen.receipt.Some? && e == c.seen.receipt.value.closedETag))
  {
    Reachable(u, acts);
    var s := Exec(u, acts);
    var c := CloserIn(s.procs[p]).value;
    assert ProcOk(s.world, s.procs[p]);
    assert RowOk(s.world, c.row);
  }

  /** A receipt is recorded only over the very receipt its close had loaded. */
  lemma ReceiptIsCompareAndSet(u: Upsert, acts: seq<Act>, p: nat, a: Answer, rk: RowKey)
    requires
      var s := Exec(u, acts);
      && p in s.procs && rk in s.world.db
      && Next(u, s, Go(p, a)).world.db != s.world.db && rk in Next(u, s, Go(p, a)).world.db
      && Next(u, s, Go(p, a)).world.db[rk] != s.world.db[rk]
    ensures
      var s := Exec(u, acts);
      && CloserIn(s.procs[p]).Some? && CloserIn(s.procs[p]).value.Recording?
      && var c := CloserIn(s.procs[p]).value;
      && c.row == rk && s.world.db[rk].receipt == c.seen.receipt
      && Next(u, s, Go(p, a)).world.db[rk] == Row(s.world.db[rk].binding, Some(c.receipt))
  {
    var w, q := Exec(u, acts).world, Exec(u, acts).procs[p];
    match q
    case Publishing(pub) => PublishStepKeepsRows(w, pub, a, rk);
    case Closing(c) => CloseStepRows(u, w, c, a, rk);
    case ClosingFirst(_, _, c) => if !c.Closed? && !c.Failed? { CloseStepRows(u, w, c, a, rk); }
    case _ =>
  }

  lemma PublishStepKeepsRows(w: World, q: Publisher, a: Answer, rk: RowKey)
    requires rk in w.db
    ensures rk in PublishStep(w, q, a).0.db && PublishStep(w, q, a).0.db[rk] == w.db[rk]
  {
  }

  lemma CloseStepRows(u: Upsert, w: World, c: Closer, a: Answer, rk: RowKey)
    requires rk in w.db
    ensures var w' := CloseStep(u, w, c, a).0;
            rk in w'.db && (w'.db[rk] == w.db[rk]
                            || (c.Recording? && c.row == rk && w.db[rk].receipt == c.seen.receipt
                                && w'.db[rk] == Row(w.db[rk].binding, Some(c.receipt))))
  {
  }

  // ---- Delivery -----------------------------------------------------------------------------------

  ghost predicate StoredIn(s: State, rk: RowKey, r: Receipt) {
    rk in s.world.db && s.world.db[rk].receipt == Some(r)
  }

  ghost predicate HeadIn(s: State, b: Binding, r: Receipt) {
    && b.key in s.world.kv && s.world.kv[b.key] == r.closedETag && r.closedETag < |s.world.history|
    && var bytes := s.world.history[r.closedETag].bytes;
    && bytes.Json? && bytes.cardUuid == Some(b.identity.card) && bytes.record.status == r.status
  }

  /** At some earlier point of the run the receipt was stored in the row. */
  ghost predicate WasStored(u: Upsert, acts: seq<Act>, rk: RowKey, r: Receipt) {
    exists past: seq<Act> :: past <= acts && StoredIn(Exec(u, past), rk, r)
  }

  /** At some earlier point the receipt's closed version was the head, and the receipt was stored by then. */
  ghost predicate WasConfirmed(u: Upsert, acts: seq<Act>, b: Binding, r: Receipt) {
    exists past: seq<Act> :: past <= acts && HeadIn(Exec(u, past), b, r) && WasStored(u, past, RowOf(b), r)
  }

  ghost predicate CloserPast(u: Upsert, acts: seq<Act>, rk: RowKey, c: Closer) {
    match c
    case Loading(row) => row == rk
    case Deciding(row, seen) => row == rk && SeenPast(u, acts, rk, seen)
    case Examining(row, seen, _, _) => row == rk && SeenPast(u, acts, rk, seen)
    case Permitting(row, seen, _) => row == rk && SeenPast(u, acts, rk, seen)
    case Patching(row, seen, _) => row == rk && SeenPast(u, acts, rk, seen)
    case Verifying(row, seen, _) => row == rk && SeenPast(u, acts, rk, seen)
    case Recording(row, seen, _) => row == rk && SeenPast(u, acts, rk, seen)
    case Reloading(row, _) => row == rk
    case Closed(row, result) => result.Some? ==> WasStored(u, acts, rk, result.value)
    case Failed => true
  }

  ghost predicate SeenPast(u: Upsert, acts: seq<Act>, rk: RowKey, seen: Row) {
    seen.receipt.Some? ==> WasStored(u, acts, rk, seen.receipt.value)
  }

  /** The binding is the one its row holds. */
  ghost predicate RowHolds(u: Upsert, acts: seq<Act>, b: Binding) {
    var db := Exec(u, acts).world.db; RowOf(b) in db && db[RowOf(b)].binding == b
  }

  ghost predicate ProcPast(u: Upsert, acts: seq<Act>, q: Proc) {
    match q
    case ClosingFirst(b, _, c) => RowHolds(u, acts, b) && CloserPast(u, acts, RowOf(b), c)
    case HeadChecking(b, response, r) =>
      RowHolds(u, acts, b) && r.responseId == response.id && WasStored(u, acts, RowOf(b), r)
    case CardChecking(b, response, r) => RowHolds(u, acts, b) && ReceiptPast(u, acts, b, response, r)
    case Delivering(b, response, r) => RowHolds(u, acts, b) && ReceiptPast(u, acts, b, response, r)
    case _ => true
  }

  ghost predicate ReceiptPast(u: Upsert, acts: seq<Act>, b: Binding, response: Response, r: Option<Receipt>) {
    && (response.closes ==> r.Some?)
    && (r.Some? ==> r.value.responseId == response.id && WasConfirmed(u, acts, b, r.value))
  }

  /** A closing delivery was preceded by a stored receipt for the same response whose closed version was,
      for the binding its row holds, the head when it was read back. */
  ghost predicate DeliveryPast(u: Upsert, acts: seq<Act>, d: Delivery) {
    d.response.closes ==>
      && d.receipt.Some? && d.receipt.value.responseId == d.response.id
      && var db := Exec(u, acts).world.db; d.row in db && WasConfirmed(u, acts, db[d.row].binding, d.receipt.value)
  }

  lemma LaterStored(u: Upsert, acts: seq<Act>, act: Act, rk: RowKey, r: Receipt)
    requires WasStored(u, acts, rk, r)
    ensures WasStored(u, acts + [act], rk, r)
  {
    var past :| past <= acts && StoredIn(Exec(u, past), rk, r);
    assert past <= acts + [act];
  }

  lemma LaterConfirmed(u: Upsert, acts: seq<Act>, act: Act, b: Binding, r: Receipt)
    requires WasConfirmed(u, acts, b, r)
    ensures WasConfirmed(u, acts + [act], b, r)
  {
    var past :| past <= acts && HeadIn(Exec(u, past), b, r) && WasStored(u, past, RowOf(b), r);
    assert past <= acts + [act];
  }

  lemma OneMoreAct(u: Upsert, acts: seq<Act>, act: Act)
    ensures Exec(u, acts + [act]) == Next(u, Exec(u, acts), act)
  {
    assert (acts + [act])[..|acts|] == acts;
  }

  lemma LaterRow(u: Upsert, acts: seq<Act>, act: Act, rk: RowKey)
    requires Inv(Exec(u, acts)) && rk in Exec(u, acts).world.db
    ensures rk in Exec(u, acts + [act]).world.db
      && Exec(u, acts + [act]).world.db[rk].binding == Exec(u, acts).world.db[rk].binding
  {
    OneMoreAct(u, acts, act);
    NextKeeps(u, Exec(u, acts), act);
  }

  lemma LaterProc(u: Upsert, acts: seq<Act>, act: Act, q: Proc)
    requires ProcPast(u, acts, q) && Inv(Exec(u, acts))
    ensures ProcPast(u, acts + [act], q)
  {
    hide Exec, Inv, WasStored, WasConfirmed;
    forall rk | rk in Exec(u, acts).world.db
      ensures rk in Exec(u, acts + [act]).world.db
        && Exec(u, acts + [act]).world.db[rk].binding == Exec(u, acts).world.db[rk].binding
    {
      LaterRow(u, acts, act, rk);
    }
    forall rk, r | WasStored(u, acts, rk, r) ensures WasStored(u, acts + [act], rk, r) {
      LaterStored(u, acts, act, rk, r);
    }
    forall b, r | WasConfirmed(u, acts, b, r) ensures WasConfirmed(u, acts + [act], b, r) {
      LaterConfirmed(u, acts, act, b, r);
    }
  }

  lemma StoredNow(u: Upsert, acts: seq<Act>, rk: RowKey, r: Receipt)
    requires StoredIn(Exec(u, acts), rk, r)
    ensures WasStored(u, acts, rk, r)
  {
    assert acts <= acts;
  }

  lemma ConfirmedNow(u: Upsert, acts: seq<Act>, b: Binding, r: Receipt)
    requires HeadIn(Exec(u, acts), b, r) && WasStored(u, acts, RowOf(b), r)
    ensures WasConfirmed(u, acts, b, r)
  {
    assert acts <= acts;
  }

  lemma RowNow(u: Upsert, acts: seq<Act>, rk: RowKey)
    requires Inv(Exec(u, acts)) && rk in Exec(u, acts).world.db
    ensures RowOf(Exec(u, acts).world.db[rk].binding) == rk && SeenPast(u, acts, rk, Exec(u, acts).world.db[rk])
  {
    var row := Exec(u, acts).world.db[rk];
    assert RowOk(Exec(u, acts).world, rk);
    if row.receipt.Some? { StoredNow(u, acts, rk, row.receipt.value); }
  }

  lemma CloserStepPast(u: Upsert, acts: seq<Act>, rk: RowKey, c: Closer, a: Answer)
    requires CloserPast(u, acts, rk, c) && Inv(Exec(u, acts))
    ensures CloserPast(u, acts, rk, CloseStep(u, Exec(u, acts).world, c, a).1)
  {
    hide Exec, WasStored, Inv, StoreBytes, ReadLegacy;
    var s := Exec(u, acts);
    if c.Loading? && rk in s.world.db { RowNow(u, acts, rk); }
    if c.Reloading? && rk in s.world.db && s.world.db[rk].receipt == Some(c.receipt) {
      StoredNow(u, acts, rk, c.receipt);
    }
  }

  lemma StepPast(u: Upsert, acts: seq<Act>, q: Proc, a: Answer)
    requires ProcPast(u, acts, q) && Inv(Exec(u, acts)) && ProcOk(Exec(u, acts).world, q)
    ensures ProcPast(u, acts, ProcStep(u, Exec(u, acts).world, q, a).1)
  {
    hide Exec, WasStored, WasConfirmed, StoredIn, Inv, ProcOk, CloseStep, PublishStep, SeenPast;
    var s := Exec(u, acts);
    match q
    case Finding(rk, response) => if rk in s.world.db { RowNow(u, acts, rk); }
    case ClosingFirst(b, response, c) => CloserStepPast(u, acts, RowOf(b), c, a);
    case HeadChecking(b, response, r) => if ProcStep(u, s.world, q, a).1.CardChecking? { ConfirmedHead(u, acts, b, r); }
    case _ =>
  }

  lemma ConfirmedHead(u: Upsert, acts: seq<Act>, b: Binding, r: Receipt)
    requires var head := ReadLegacy(Exec(u, acts).world, b.key);
             && head.Head? && head.etag == r.closedETag && head.bytes.cardUuid == Some(b.identity.card)
             && head.bytes.record.status == r.status
    requires WasStored(u, acts, RowOf(b), r)
    ensures WasConfirmed(u, acts, b, r)
  {
    ConfirmedNow(u, acts, b, r);
  }

  /** In every run, whatever interleaves, a closing response is delivered only after a receipt naming it was
      stored in its row and the closed version was read back as the head of the row's binding. */
  lemma {:induction false} DeliveryIsPrecededByReceipt(u: Upsert, acts: seq<Act>)
    ensures forall d ::
        0 <= d < |Exec(u, acts).world.deliveries| ==> DeliveryPast(u, acts, Exec(u, acts).world.deliveries[d])
    ensures forall p :: p in Exec(u, acts).procs ==> ProcPast(u, acts, Exec(u, acts).procs[p])
  {
    if acts != [] {
      var before, act := acts[..|acts| - 1], acts[|acts| - 1];
      assert acts == before + [act];
      DeliveryIsPrecededByReceipt(u, before);
      Reachable(u, before);
      var s, s' := Exec(u, before), Exec(u, acts);
      forall p | p in s'.procs ensures ProcPast(u, acts, s'.procs[p]) {
        if act.Go? && act.p == p { StepPast(u, before, s.procs[p], act.answer); }
        if (p in s.procs && s'.procs[p] == s.procs[p]) || (act.Go? && act.p == p) {
          LaterProc(u, before, act, s'.procs[p]);
        }
      }
      DeliveriesStep(u, before, act);
    }
  }

  lemma OnlyDeliveringDelivers(u: Upsert, w: World, q: Proc, a: Answer)
    ensures var ds := ProcStep(u, w, q, a).0.deliveries;
            if q.Delivering? then ds == w.deliveries + [Delivery(RowOf(q.binding), q.response, q.receipt)]
            else ds == w.deliveries
  {
  }

  lemma DeliveriesStep(u: Upsert, before: seq<Act>, act: Act)
    requires forall d ::
        0 <= d < |Exec(u, before).world.deliveries| ==> DeliveryPast(u, before, Exec(u, before).world.deliveries[d])
    requires forall p :: p in Exec(u, before).procs ==> ProcPast(u, before, Exec(u, before).procs[p])
    requires Inv(Exec(u, before))
    ensures forall d :: 0 <= d < |Next(u, Exec(u, before), act).world.deliveries| ==>
              DeliveryPast(u, before + [act], Next(u, Exec(u, before), act).world.deliveries[d])
  {
    var s := Exec(u, before);
    var ds := Next(u, s, act).world.deliveries;
    forall del | DeliveryPast(u, before, del) ensures DeliveryPast(u, before + [act], del) {
      LaterDelivery(u, before, act, del);
    }
    if act.Go? && act.p in s.procs {
      var q := s.procs[act.p];
      OnlyDeliveringDelivers(u, s.world, q, act.answer);
      if q.Delivering? && q.response.closes {
        LaterConfirmed(u, before, act, q.binding, q.receipt.value);
        LaterRow(u, before, act, RowOf(q.binding));
        assert DeliveryPast(u, before + [act], Delivery(RowOf(q.binding), q.response, q.receipt));
      }
    } else {
      assert ds == s.world.deliveries;
    }
  }

  lemma LaterDelivery(u: Upsert, before: seq<Act>, act: Act, del: Delivery)
    requires DeliveryPast(u, before, del) && Inv(Exec(u, before))
    ensures DeliveryPast(u, before + [act], del)
  {
    if del.response.closes {
      LaterConfirmed(u, before, act, Exec(u, before).world.db[del.row].binding, del.receipt.value);
      LaterRow(u, before, act, del.row);
    }
  }
}
