/** What a publication that runs alone does, written out over the rows and the head of the legacy record:
    exactly when it succeeds, and the whole world it leaves. */
module HomeMirrorIssuance {
  import opened Optional
  import opened HomeMirror
  import opened HomeMirrorRecovery

  /** The head of a legacy key is this readable version. */
  predicate HeadIs(w: World, key: Key, etag: nat, bytes: Bytes) {
    && key in w.kv && w.kv[key] == etag && etag < |w.history| && w.history[etag].bytes == bytes
    && bytes.Json? && bytes.record.kind == key.kind
  }

  /** The request is well formed and its source is registered as the request gives it. */
  predicate WellFormed(w: World, req: Request) {
    && req.valid && req.key.kind == req.record.kind && req.key.id == req.record.id
    && req.source.sourceId in w.sources && w.sources[req.source.sourceId] == req.source
  }

  /** Every row of the legacy key has the request's source and card, whatever its revision and issuance. */
  predicate SameOwnerOnly(w: World, req: Request) {
    forall rk :: rk in w.db && w.db[rk].binding.key == req.key ==>
      w.db[rk].binding.source.sourceId == req.source.sourceId && w.db[rk].binding.identity.card == req.identity.card
  }

  function OwnRow(req: Request): RowKey { RowKey(req.source.sourceId, req.identity) }

  function NewBytes(req: Request): Bytes { Json(req.record, Some(req.identity.card), 0) }

  /** The request's own row was made by the same request, and is closed or still has its version at the head. */
  predicate SameAsBound(w: World, req: Request)
    requires OwnRow(req) in w.db
  {
    var row := w.db[OwnRow(req)];
    && row.binding.source == req.source && row.binding.key == req.key && row.binding.publication == NewBytes(req)
    && (row.receipt.Some? || HeadIs(w, req.key, row.binding.publishedETag, NewBytes(req)))
  }

  /** The legacy record is absent, has the new bytes already, is the bound version of any row of the same source
      and card, or has no card and the same business content. */
  predicate MayReplaceHead(w: World, req: Request) {
    || req.key !in w.kv
    || (w.kv[req.key] < |w.history|
        && var etag, bytes := w.kv[req.key], w.history[w.kv[req.key]].bytes;
           && HeadIs(w, req.key, etag, bytes)
           && (|| bytes == NewBytes(req)
               || (bytes.cardUuid == None && bytes.record == req.record)
               || exists rk :: rk in w.db && IsBoundVersion(w.db[rk].binding, req, etag, bytes)))
  }

  /** The version is bound to the request's source, card and legacy key. */
  predicate IsBoundVersion(b: Binding, req: Request, etag: nat, bytes: Bytes) {
    && b.key == req.key && b.source.sourceId == req.source.sourceId && b.identity.card == req.identity.card
    && b.publishedETag == etag && b.publication == bytes
  }

  predicate MayIssue(w: World, req: Request) {
    && WellFormed(w, req) && SameOwnerOnly(w, req)
    && if OwnRow(req) in w.db then SameAsBound(w, req) else MayReplaceHead(w, req)
  }

  predicate HasNewBytes(w: World, req: Request) {
    req.key in w.kv && HeadIs(w, req.key, w.kv[req.key], NewBytes(req))
  }

  /** The world with the new bytes at the head: one write, unless they are there already. */
  function Stored(w: World, req: Request): World {
    if HasNewBytes(w, req) then w
    else
      var replaced := if req.key in w.kv then Some(w.kv[req.key]) else None;
      var put := Write(req.key, NewBytes(req), PublisherOf(req.source.sourceId, req.identity.card), replaced);
      w.(kv := w.kv[req.key := |w.history|], history := w.history + [put])
  }

  /** The binding of a new issuance: its version is the one at the head afterwards. */
  function NewBinding(w: World, req: Request): Binding {
    Binding(req.source, req.identity, req.key, NewBytes(req), if HasNewBytes(w, req) then w.kv[req.key]
      else |w.history|)
  }

  /** The world and the answer that a successful publication leaves. */
  function Issued(w: World, req: Request): (World, Publisher) {
    if OwnRow(req) in w.db then (w, Published(w.db[OwnRow(req)].binding))
    else
      var w' := Stored(w, req);
      (w'.(db := w'.db[OwnRow(req) := Row(NewBinding(w, req), None)]), Published(NewBinding(w, req)))
  }

  // ---- The steps ----------------------------------------------------------------------------------

  lemma {:induction false} Unroll(w: World, q: Publisher, n: nat)
    requires n > 0
    ensures Alone(w, q, n) == Alone(PublishStep(w, q, CALM).0, PublishStep(w, q, CALM).1, n - 1)
  {
  }

  lemma {:induction false} Stays(w: World, q: Publisher, n: nat)
    requires q.Published? || q.Stopped?
    ensures Alone(w, q, n) == (w, q)
  {
    if n > 0 { Stays(w, q, n - 1); }
  }

  lemma RefusesIff(w: World, req: Request)
    ensures Refuses(req, w.db) <==>
      || !SameOwnerOnly(w, req)
      || (OwnRow(req) in w.db
          && var b := w.db[OwnRow(req)].binding;
             b.source != req.source || b.key != req.key || b.publication != NewBytes(req))
  {
  }

  /** Up to the read of the head: four awaits. */
  lemma Checks(w: World, req: Request, n: nat)
    ensures Alone(w, Registering(req), n + 4) ==
      if !WellFormed(w, req) || Refuses(req, w.db) then (w, Stopped)
      else if OwnRow(req) in w.db && w.db[OwnRow(req)].receipt.Some? then (w, Published(w.db[OwnRow(req)].binding))
      else Alone(w, Reading(req, w.db), n)
  {
    hide Refuses;
    Unroll(w, Registering(req), n + 4);
    if !WellFormed(w, req) {
      Stays(w, Stopped, n + 3);
    } else {
      Unroll(w, Selecting(req), n + 3);
      if Refuses(req, w.db) {
        Stays(w, Stopped, n + 2);
      } else {
        Unroll(w, Feeding(req, w.db), n + 2);
        Unroll(w, Confirming(req, w.db), n + 1);
        if OwnRow(req) in w.db && w.db[OwnRow(req)].receipt.Some? { Stays(w, Published(w.db[OwnRow(req)].binding), n); }
      }
    }
  }

  /** The head decides: the awaits from its read on, with no receipt in the way. */
  lemma Head(w: World, req: Request, n: nat)
    requires WellFormed(w, req) && !Refuses(req, w.db)
    requires OwnRow(req) in w.db ==> w.db[OwnRow(req)].receipt.None?
    ensures
      var r := Alone(w, Reading(req, w.db), n + 1);
      if OwnRow(req) in w.db then
        r == if SameAsBound(w, req) then (w, Published(w.db[OwnRow(req)].binding)) else (w, Stopped)
      else if !MayReplaceHead(w, req) then r == (w, Stopped)
      else if HasNewBytes(w, req) then r == Alone(w, Inserting(req, w.kv[req.key]), n)
      else r == Alone(w, Rechecking(req, if req.key in w.kv then Some(w.kv[req.key]) else None), n)
  {
    RefusesIff(w, req);
    hide Refuses;
    Unroll(w, Reading(req, w.db), n + 1);
    FirstRead(w, req);
    var q := AfterFirstRead(w, req, w.db);
    if q.Published? || q.Stopped? { Stays(w, q, n); }
  }

  lemma FirstRead(w: World, req: Request)
    requires WellFormed(w, req)
    requires OwnRow(req) in w.db ==>
      && w.db[OwnRow(req)].receipt.None? && w.db[OwnRow(req)].binding.source == req.source
      && w.db[OwnRow(req)].binding.key == req.key && w.db[OwnRow(req)].binding.publication == NewBytes(req)
    ensures AfterFirstRead(w, req, w.db) ==
      if OwnRow(req) in w.db then (if SameAsBound(w, req) then Published(w.db[OwnRow(req)].binding) else Stopped)
      else if !MayReplaceHead(w, req) then Stopped
      else if HasNewBytes(w, req) then Inserting(req, w.kv[req.key])
      else Rechecking(req, if req.key in w.kv then Some(w.kv[req.key]) else None)
  {
    if ReadLegacy(w, req.key).Head? {
      var etag, bytes := w.kv[req.key], w.history[w.kv[req.key]].bytes;
      PredecessorIff(w, req, etag, bytes);
      assert HeadIs(w, req.key, etag, bytes);
    }
  }

  lemma PredecessorIff(w: World, req: Request, etag: nat, bytes: Bytes)
    ensures Predecessor(req, w.db, etag, bytes) <==>
      exists rk :: rk in w.db && IsBoundVersion(w.db[rk].binding, req, etag, bytes)
  {
    if Predecessor(req, w.db, etag, bytes) {
      var rk :| rk in w.db && w.db[rk].binding.key == req.key
        && SameOwner(w.db[rk].binding, req.source.sourceId, req.identity.card)
        && w.db[rk].binding.publishedETag == etag && w.db[rk].binding.publication == bytes;
      assert IsBoundVersion(w.db[rk].binding, req, etag, bytes);
    }
  }

  /** The guarded insert takes effect. */
  lemma InsertTakesEffect(w: World, b: Binding)
    requires RowKey(b.source.sourceId, b.identity) !in w.db
    requires forall rk :: rk in w.db && w.db[rk].binding.key == b.key ==>
      w.db[rk].binding.source.sourceId == b.source.sourceId && w.db[rk].binding.identity.card == b.identity.card
    ensures InsertRow(w, b) == w.(db := w.db[RowKey(b.source.sourceId, b.identity) := Row(b, None)])
  {
  }

  lemma Binds(w: World, req: Request, etag: nat, n: nat)
    requires SameOwnerOnly(w, req) && OwnRow(req) !in w.db
    ensures
      var b := Binding(req.source, req.identity, req.key, NewBytes(req), etag);
      Alone(w, Inserting(req, etag), n + 2) == (w.(db := w.db[OwnRow(req) := Row(b, None)]), Published(b))
  {
    var b := Binding(req.source, req.identity, req.key, NewBytes(req), etag);
    InsertTakesEffect(w, b);
    hide InsertRow, SameOwnerOnly;
    var w' := w.(db := w.db[OwnRow(req) := Row(b, None)]);
    assert b == req.Bound(etag);
    Unroll(w, Inserting(req, etag), n + 2);
    Unroll(w', Replaying(req, etag, false), n + 1);
    Stays(w', Published(b), n);
  }

  lemma PutsAndBinds(w: World, req: Request, n: nat)
    requires WellFormed(w, req) && SameOwnerOnly(w, req) && OwnRow(req) !in w.db && !HasNewBytes(w, req)
    ensures Alone(w, Rechecking(req, if req.key in w.kv then Some(w.kv[req.key]) else None), n + 5) == Issued(w, req)
  {
    var head := if req.key in w.kv then Some(w.kv[req.key]) else None;
    var w' := Stored(w, req);
    Unroll(w, Rechecking(req, head), n + 5);
    Unroll(w, Putting(req, head), n + 4);
    assert StoreBytes(w, req.key, req.Body(), PublisherOf(req.source.sourceId, req.identity.card)) == w';
    Unroll(w', ReadingBack(req), n + 3);
    Binds(w', req, |w.history|, n);
  }

  /** From the read of the head on, without a row of its own. */
  lemma IssuesFresh(w: World, req: Request)
    requires WellFormed(w, req) && SameOwnerOnly(w, req) && OwnRow(req) !in w.db
    ensures Alone(w, Reading(req, w.db), 6) == if MayReplaceHead(w, req) then Issued(w, req) else (w, Stopped)
  {
    RefusesIff(w, req);
    hide Refuses, Alone, SameOwnerOnly, MayReplaceHead, WellFormed, PublishStep;
    Head(w, req, 5);
    if MayReplaceHead(w, req) {
      if HasNewBytes(w, req) { Binds(w, req, w.kv[req.key], 3); } else { PutsAndBinds(w, req, 0); }
    }
  }

  /** A publication that runs alone succeeds exactly when its request may be issued, in particular for new
      content of a card whose bound version is the head; it then leaves the new bytes at the head, by at most one
      write, and a row binding that version. Otherwise it changes nothing. */
  lemma IssuesIff(w: World, req: Request)
    ensures Alone(w, Registering(req), 10) == if MayIssue(w, req) then Issued(w, req) else (w, Stopped)
  {
    RefusesIff(w, req);
    Checks(w, req, 6);
    hide Refuses, Alone, SameOwnerOnly, MayReplaceHead, HeadIs, HasNewBytes, Stored, NewBinding, WellFormed;
    if WellFormed(w, req) && !Refuses(req, w.db) && (OwnRow(req) in w.db ==> w.db[OwnRow(req)].receipt.None?) {
      if OwnRow(req) in w.db { Head(w, req, 5); } else { IssuesFresh(w, req); }
    }
  }

  /** New content for a mirrored card: while the head is the version bound by some row of the same source and
      card, and no other owner has a row of the key, a request without a row of its own is issued, its bytes
      become the head and its row binds their version. */
  lemma ReissueSucceeds(w: World, req: Request, prior: RowKey)
    requires WellFormed(w, req) && SameOwnerOnly(w, req) && OwnRow(req) !in w.db
    requires prior in w.db
      && var b := w.db[prior].binding; b.key == req.key && HeadIs(w, req.key, b.publishedETag, b.publication)
    ensures
      var r := Alone(w, Registering(req), 10);
      && r.1.Published? && HeadIs(r.0, req.key, r.1.binding.publishedETag, NewBytes(req))
      && r.0.db == w.db[OwnRow(req) := Row(r.1.binding, None)] && r.1.binding.publication == NewBytes(req)
  {
    var b := w.db[prior].binding;
    assert IsBoundVersion(b, req, b.publishedETag, b.publication);
    IssuesIff(w, req);
  }

  /** What the recovery theorems call publishable, written out. */
  lemma PublishableIff(w: World, req: Request)
    requires KeyedRows(w)
    ensures Publishable(w, req) <==> MayIssue(w, req)
  {
    hide Publishable, MayIssue, Alone;
    AloneSucceedsIffPublishable(w, req);
    IssuesIff(w, req);
  }

  /** Wherever a publication that may be issued crashed, its re-run is published: its row holds the binding that is
      answered, with the new bytes, and the binding's version is the head unless the row is closed. */
  lemma RerunIssues(w: World, req: Request, crashedAfter: nat)
    requires KeyedRows(w) && MayIssue(w, req)
    ensures
      var r := Alone(Alone(w, Registering(req), crashedAfter).0, Registering(req), 10);
      && r.1.Published? && OwnRow(req) in r.0.db && r.0.db[OwnRow(req)].binding == r.1.binding
      && r.1.binding.publication == NewBytes(req) && r.1.binding.key == req.key && r.1.binding.source == req.source
      && (r.0.db[OwnRow(req)].receipt.Some? || HeadIs(r.0, req.key, r.1.binding.publishedETag, NewBytes(req)))
  {
    PublishableIff(w, req);
    RerunAfterCrash(w, req, crashedAfter);
    hide Alone, Publishable, MayIssue;
  }
}
