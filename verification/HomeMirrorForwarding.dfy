/** What a forward that runs alone does: exactly when it delivers, and with which receipt. */
module HomeMirrorForwarding {
  import opened Optional
  import opened HomeMirror
  import opened HomeMirrorIssuance
  import opened HomeMirrorClosing

  /** A forward that runs alone for n awaits, with the same answer at each. */
  function ForwardAlone(u: Upsert, w: World, q: Proc, a: Answer, n: nat): (World, Proc)
    decreases n
  {
    if n == 0 then (w, q) else var r := ProcStep(u, w, q, a); ForwardAlone(u, r.0, r.1, a, n - 1)
  }

  function Delivered(w: World, rk: RowKey, response: Response, receipt: Option<Receipt>): World {
    w.(deliveries := w.deliveries + [Delivery(rk, response, receipt)])
  }

  /** The closed version is still the head, with the binding's card and the receipt's status. */
  predicate StillClosed(w: World, b: Binding, r: Receipt) {
    && r.closedETag < |w.history| && HeadIs(w, b.key, r.closedETag, w.history[r.closedETag].bytes)
    && w.history[r.closedETag].bytes.cardUuid == Some(b.identity.card)
    && w.history[r.closedETag].bytes.record.status == r.status
  }

  /** What follows a close that ended this way. */
  function AfterClose(w: World, b: Binding, response: Response, c: Closer): World {
    if c.Closed? && c.result.Some? && c.result.value.responseId == response.id && StillClosed(w, b, c.result.value)
    then Delivered(w, RowOf(b), response, c.result)
    else w
  }

  lemma {:induction false} UnrollForward(u: Upsert, w: World, q: Proc, a: Answer, n: nat)
    requires n > 0
    ensures ForwardAlone(u, w, q, a, n) == ForwardAlone(u, ProcStep(u, w, q, a).0, ProcStep(u, w, q, a).1, a, n - 1)
  {
  }

  lemma {:induction false} StaysEnded(u: Upsert, w: World, a: Answer, n: nat)
    ensures ForwardAlone(u, w, Ended, a, n) == (w, Ended)
  {
    if n > 0 { StaysEnded(u, w, a, n - 1); }
  }

  /** From the last check of the card on: two awaits. */
  lemma Delivers(u: Upsert, w: World, b: Binding, response: Response, receipt: Option<Receipt>, a: Answer, n: nat)
    requires a.ok
    ensures ForwardAlone(u, w, CardChecking(b, response, receipt), a, n + 2)
      == (Delivered(w, RowOf(b), response, receipt), Ended)
  {
    UnrollForward(u, w, CardChecking(b, response, receipt), a, n + 2);
    UnrollForward(u, w, Delivering(b, response, receipt), a, n + 1);
    StaysEnded(u, Delivered(w, RowOf(b), response, receipt), a, n);
  }

  /** From an ended close on: four awaits. */
  lemma DeliversAfterClose(u: Upsert, w: World, b: Binding, response: Response, c: Closer, a: Answer, n: nat)
    requires a.ok && (c.Closed? || c.Failed?)
    ensures ForwardAlone(u, w, ClosingFirst(b, response, c), a, n + 4) == (AfterClose(w, b, response, c), Ended)
  {
    UnrollForward(u, w, ClosingFirst(b, response, c), a, n + 4);
    if c.Closed? && c.result.Some? && c.result.value.responseId == response.id {
      var r := c.result.value;
      UnrollForward(u, w, HeadChecking(b, response, r), a, n + 3);
      if StillClosed(w, b, r) { Delivers(u, w, b, response, Some(r), a, n); } else { StaysEnded(u, w, a, n + 2); }
    } else {
      StaysEnded(u, w, a, n + 3);
    }
  }

  /** A forward makes the awaits of its close. */
  lemma {:induction false} ThroughClose(u: Upsert, w: World, b: Binding, response: Response, c: Closer, a: Answer,
      n: nat)
    requires a.ok && (CloseAlone(u, w, c, a, n).1.Closed? || CloseAlone(u, w, c, a, n).1.Failed?)
    ensures
      var r := CloseAlone(u, w, c, a, n);
      ForwardAlone(u, w, ClosingFirst(b, response, c), a, n + 4) == (AfterClose(r.0, b, response, r.1), Ended)
    decreases n
  {
    hide AfterClose, CloseStep;
    if c.Closed? || c.Failed? {
      StaysClosed(u, w, c, a, n);
      DeliversAfterClose(u, w, b, response, c, a, n);
    } else {
      UnrollClose(u, w, c, a, n);
      UnrollForward(u, w, ClosingFirst(b, response, c), a, n + 4);
      var r := CloseStep(u, w, c, a);
      ThroughClose(u, r.0, b, response, r.1, a, n - 1);
    }
  }

  lemma {:induction false} CloseEnds(u: Upsert, w: World, rk: RowKey, a: Answer, n: nat)
    requires Grants(a) && n >= 8
    ensures var c := CloseAlone(u, w, Loading(rk), a, n).1; c.Closed? || c.Failed?
  {
    ClosesAlone(u, w, rk, a);
    var r := CloseAlone(u, w, Loading(rk), a, 8);
    CloseInTwo(u, w, Loading(rk), a, 8, n - 8);
    StaysClosed(u, r.0, r.1, a, n - 8);
  }

  lemma {:induction false} CloseInTwo(u: Upsert, w: World, c: Closer, a: Answer, m: nat, n: nat)
    ensures CloseAlone(u, w, c, a, m + n)
      == CloseAlone(u, CloseAlone(u, w, c, a, m).0, CloseAlone(u, w, c, a, m).1, a, n)
    decreases m
  {
    if m > 0 {
      UnrollClose(u, w, c, a, m + n);
      UnrollClose(u, w, c, a, m);
      CloseInTwo(u, CloseStep(u, w, c, a).0, CloseStep(u, w, c, a).1, a, m - 1, n);
    }
  }

  /** A forward that runs alone, written out: without a row it does nothing; a response that closes nothing is
      delivered; a closing one is delivered, with the receipt, exactly when its close ends with a receipt for it
      whose closed version is the head with its status. Eight awaits are enough for a close, and five more for a
      forward. */
  lemma ForwardsAlone(u: Upsert, w: World, rk: RowKey, response: Response, a: Answer, n: nat)
    requires Grants(a) && (rk in w.db ==> RowOf(w.db[rk].binding) == rk) && n >= 8
    ensures ForwardAlone(u, w, Finding(rk, response), a, n + 5) == (
      if rk !in w.db then w
      else if !response.closes then Delivered(w, rk, response, None)
      else
        var r := CloseAlone(u, w, Loading(rk), a, n);
        AfterClose(r.0, w.db[rk].binding, response, r.1), Ended)
  {
    UnrollForward(u, w, Finding(rk, response), a, n + 5);
    hide ForwardAlone, CloseAlone, AfterClose;
    if rk !in w.db {
      StaysEnded(u, w, a, n + 4);
    } else if !response.closes {
      Delivers(u, w, w.db[rk].binding, response, None, a, n + 2);
    } else {
      CloseEnds(u, w, rk, a, n);
      ThroughClose(u, w, w.db[rk].binding, response, Loading(rk), a, n);
    }
  }

  /** The owner's answer arrives: from the published head, a forward of the selected response closes the mirror and
      delivers the response with the receipt that the row then holds. */
  lemma AnswerArrives(u: Upsert, w: World, rk: RowKey, response: Response, a: Answer, patched: Record)
    requires Grants(a) && rk in w.db && w.db[rk].receipt.None? && CardIsCurrent(w.db[rk].binding, a)
    requires RowOf(w.db[rk].binding) == rk && response.closes && a.choice.value.responseId == response.id
    requires var b := w.db[rk].binding;
        HeadIs(w, b.key, b.publishedETag, b.publication) && b.publication.record.id == b.key.id
    requires u(a.record, a.choice.value.patch, a.now) == Some(Upserted(true, patched))
    requires patched.kind == w.db[rk].binding.key.kind
    ensures
      var r := ForwardAlone(u, w, Finding(rk, response), a, 13);
      && r.1 == Ended && rk in r.0.db && r.0.db[rk].receipt.Some?
      && r.0.deliveries == w.deliveries + [Delivery(rk, response, r.0.db[rk].receipt)]
      && r.0.db[rk].receipt.value.responseId == response.id
      && HeadIs(r.0, w.db[rk].binding.key, r.0.db[rk].receipt.value.closedETag,
        Json(patched, Some(w.db[rk].binding.identity.card), 0))
  {
    ForwardsAlone(u, w, rk, response, a, 8);
    ClosesAlone(u, w, rk, a);
  }
}
