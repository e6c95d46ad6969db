/** Crash recovery of publishHomeMirror: re-running it from the state left by a crash after any await. */
module HomeMirrorRecovery {
  import opened Optional
  import opened HomeMirror

  /** The answers of an environment that neither fails nor interferes. */
  const CALM := Answer(true, false, None, 0, Record(0, 0, 0, 0, 0))

  /** A publication that runs alone for n awaits. */
  function Alone(w: World, q: Publisher, n: nat): (World, Publisher)
    decreases n
  {
    if n == 0 then (w, q) else var r := PublishStep(w, q, CALM); Alone(r.0, r.1, n - 1)
  }

  /** An upper bound on the awaits left before the publication returns. */
  function AwaitsLeft(q: Publisher): nat {
    match q
    case Registering(_) => 10
    case Selecting(_) => 9
    case Feeding(_, _) => 8
    case Confirming(_, _) => 7
    case Reading(_, _) => 6
    case Rechecking(_, _) => 5
    case Putting(_, _) => 4
    case ReadingBack(_) => 3
    case Inserting(_, _) => 2
    case Replaying(_, _, _) => 1
    case Published(_) => 0
    case Stopped => 0
  }

  /** The head this publication may proceed from: none, its own bytes, its own bound predecessor, or an
      unbound record with the same business content. */
  predicate HeadAcceptable(w: World, req: Request) {
    match ReadLegacy(w, req.key)
    case Absent => true
    case Refused => false
    case Head(etag, bytes) =>
      bytes == req.Body() || Predecessor(req, w.db, etag, bytes) || UnboundSameBusiness(req, bytes)
  }

  predicate HeadIsBound(w: World, req: Request, b: Binding) {
    ReadLegacy(w, req.key) == Head(b.publishedETag, req.Body())
  }

  /** When a publication that runs alone succeeds: its input is well formed and registered, no row refuses
      it, and either it is already bound (and closed, or still the head), or the head is acceptable. */
  predicate Publishable(w: World, req: Request) {
    && req.valid && req.key == Key(req.record.kind, req.record.id)
    && req.source.sourceId in w.sources && w.sources[req.source.sourceId] == req.source
    && !Refuses(req, w.db)
    && (if req.Row() in w.db then w.db[req.Row()].receipt.Some? || HeadIsBound(w, req, w.db[req.Row()].binding)
        else HeadAcceptable(w, req))
  }

  /** Row, head and bytes agree: the state a completed publication leaves. */
  predicate Mirrored(w: World, req: Request, b: Binding) {
    && req.Row() in w.db && w.db[req.Row()].binding == b && b == req.Bound(b.publishedETag)
    && (w.db[req.Row()].receipt.Some? || HeadIsBound(w, req, b))
  }

  /** The locals of a publication that has run alone describe the current world. */
  ghost predicate Current(w: World, q: Publisher, req: Request) {
    match q
    case Registering(r) => r == req
    case Selecting(r) => r == req && InputOk(w, req)
    case Feeding(r, all) => r == req && InputOk(w, req) && all == w.db && !Refuses(req, w.db)
    case Confirming(r, all) => r == req && InputOk(w, req) && all == w.db && !Refuses(req, w.db)
    case Reading(r, all) =>
      r == req && InputOk(w, req) && all == w.db && !Refuses(req, w.db)
      && (req.Row() in w.db ==> w.db[req.Row()].receipt.None?)
    case Rechecking(r, head) => r == req && Unbound(w, req) && HeadRead(w, req, head)
    case Putting(r, head) => r == req && Unbound(w, req) && HeadRead(w, req, head)
    case ReadingBack(r) =>
      r == req && Unbound(w, req) && ReadLegacy(w, req.key).Head? && ReadLegacy(w, req.key).bytes == req.Body()
    case Inserting(r, etag) => r == req && Unbound(w, req) && ReadLegacy(w, req.key) == Head(etag, req.Body())
    case Replaying(r, etag, erred) =>
      r == req && !erred && InputOk(w, req) && !Refuses(req, w.db) && Mirrored(w, req, req.Bound(etag))
    case Published(b) => InputOk(w, req) && !Refuses(req, w.db) && Mirrored(w, req, b)
    case Stopped => !Publishable(w, req)
  }

  ghost predicate InputOk(w: World, req: Request) {
    && req.valid && req.key == Key(req.record.kind, req.record.id)
    && req.source.sourceId in w.sources && w.sources[req.source.sourceId] == req.source
  }

  ghost predicate Unbound(w: World, req: Request) {
    InputOk(w, req) && !Refuses(req, w.db) && req.Row() !in w.db
  }

  ghost predicate HeadRead(w: World, req: Request, head: Option<nat>) {
    && (head.None? <==> req.key !in w.kv)
    && (head.Some? ==> w.kv[req.key] == head.value && head.value < |w.history|)
    && HeadAcceptable(w, req)
  }

  /** Puts leave the database alone. */
  lemma PutThenReadable(w: World, req: Request)
    requires InputOk(w, req)
    ensures var w' := StoreBytes(w, req.key, req.Body(), PublisherOf(req.source.sourceId, req.identity.card));
            w'.db == w.db && ReadLegacy(w', req.key) == Head(|w.history|, req.Body())
  {
  }

  lemma InsertBinds(w: World, req: Request, etag: nat)
    requires Unbound(w, req) && ReadLegacy(w, req.key) == Head(etag, req.Body())
    ensures var w' := InsertRow(w, req.Bound(etag));
            w' == w.(db := w.db[req.Row() := Row(req.Bound(etag), None)]) && !Refuses(req, w'.db)
              && Mirrored(w', req, req.Bound(etag))
  {
    var w' := InsertRow(w, req.Bound(etag));
    assert RowKey(req.Bound(etag).source.sourceId, req.Bound(etag).identity) == req.Row();
    assert w' == w.(db := w.db[req.Row() := Row(req.Bound(etag), None)]);
    assert ReadLegacy(w', req.key) == ReadLegacy(w, req.key);
    forall rk | rk in w'.db && w'.db[rk].binding.key == req.key
      ensures SameOwner(w'.db[rk].binding, req.source.sourceId, req.identity.card)
    {
      if rk != req.Row() { assert rk in w.db; }
    }
  }

  /** What one calm step keeps: the locals stay current, whether the request is publishable does not
      change, and the publication comes closer to its end. */
  ghost predicate Calmly(w: World, q: Publisher, req: Request) {
    var r := PublishStep(w, q, CALM);
    && Current(r.0, r.1, req) && KeyedRows(r.0)
    && (Publishable(w, req) <==> Publishable(r.0, req))
    && AwaitsLeft(r.1) <= (if AwaitsLeft(q) == 0 then 0 else AwaitsLeft(q) - 1)
    && |w.history| <= |r.0.history|
  }

  predicate Writes(q: Publisher) { q.Putting? || q.Inserting? }

  lemma ReadingStep(w: World, q: Publisher, req: Request)
    requires Current(w, q, req) && KeyedRows(w) && !Writes(q)
    ensures Calmly(w, q, req)
  {
    hide Calmly, Current, KeyedRows;
    if ChecksInput(q) { CheckingStep(w, q, req); } else { HeadStep(w, q, req); }
  }

  /** The awaits before the head of the legacy record is read. */
  predicate ChecksInput(q: Publisher) { q.Registering? || q.Selecting? || q.Feeding? || q.Confirming? }

  lemma CheckingStep(w: World, q: Publisher, req: Request)
    requires Current(w, q, req) && KeyedRows(w) && ChecksInput(q)
    ensures Calmly(w, q, req)
  {
  }

  lemma HeadStep(w: World, q: Publisher, req: Request)
    requires Current(w, q, req) && KeyedRows(w) && !Writes(q) && !ChecksInput(q)
    ensures Calmly(w, q, req)
  {
  }

  lemma WritingStep(w: World, q: Publisher, req: Request)
    requires Current(w, q, req) && KeyedRows(w) && Writes(q)
    ensures Calmly(w, q, req)
  {
    match q
    case Putting(_, head) => PutThenReadable(w, req);
    case Inserting(_, etag) => InsertBinds(w, req, etag);
  }

  lemma CalmStep(w: World, q: Publisher, req: Request)
    requires Current(w, q, req) && KeyedRows(w)
    ensures Calmly(w, q, req)
  {
    hide Calmly, Current, KeyedRows;
    if Writes(q) { WritingStep(w, q, req); } else { ReadingStep(w, q, req); }
  }

  /** Rows carry their own primary key, as the row decoder checks (bridge.ts:101). */
  ghost predicate KeyedRows(w: World) { forall rk :: rk in w.db ==> RowOf(w.db[rk].binding) == rk }

  lemma {:induction false} CalmRun(w: World, q: Publisher, req: Request, n: nat)
    requires Current(w, q, req) && KeyedRows(w)
    ensures var r := Alone(w, q, n);
            && Current(r.0, r.1, req) && KeyedRows(r.0)
            && (Publishable(w, req) <==> Publishable(r.0, req))
            && AwaitsLeft(r.1) <= (if AwaitsLeft(q) <= n then 0 else AwaitsLeft(q) - n)
    decreases n
  {
    if n > 0 {
      CalmStep(w, q, req);
      var r := PublishStep(w, q, CALM);
      CalmRun(r.0, r.1, req, n - 1);
    }
  }

  /** Running alone, a publication returns within ten awaits; it succeeds exactly when it is publishable,
      and then leaves a row for the request whose version is the head with the publication's bytes
      (unless the mirror was already closed). */
  lemma AloneSucceedsIffPublishable(w: World, req: Request)
    requires KeyedRows(w)
    ensures var r := Alone(w, Registering(req), 10);
            && (r.1.Published? <==> Publishable(w, req))
            && (r.1.Stopped? <==> !Publishable(w, req))
            && (r.1.Published? ==> Mirrored(r.0, req, r.1.binding))
  {
    CalmRun(w, Registering(req), req, 10);
  }

  /** From a crash after any number of awaits of a publication that could succeed, re-running it succeeds
      and ends with the legacy head equal to the published bytes and a binding carrying that version. */
  lemma RerunAfterCrash(w: World, req: Request, crashedAfter: nat)
    requires KeyedRows(w) && Publishable(w, req)
    ensures
      var left := Alone(w, Registering(req), crashedAfter).0;
      var r := Alone(left, Registering(req), 10);
      r.1.Published? && Mirrored(r.0, req, r.1.binding)
  {
    CalmRun(w, Registering(req), req, crashedAfter);
    AloneSucceedsIffPublishable(Alone(w, Registering(req), crashedAfter).0, req);
  }

  /** Re-running a completed publication returns the same binding and writes nothing: neither the legacy
      record nor the database changes at any of its awaits. */
  lemma RerunIsIdempotent(w: World, req: Request, n: nat)
    requires KeyedRows(w) && Publishable(w, req)
    ensures
      var done := Alone(w, Registering(req), 10);
      && done.1.Published?
      && Alone(done.0, Registering(req), n).0 == done.0
      && Alone(done.0, Registering(req), 10).1 == done.1
  {
    CalmRun(w, Registering(req), req, 10);
    var done := Alone(w, Registering(req), 10);
    BoundRunChangesNothing(done.0, Registering(req), req, n);
    BoundRunChangesNothing(done.0, Registering(req), req, 10);
    CalmRun(done.0, Registering(req), req, 10);
  }

  /** Once its row exists, a publication never reaches a put or an insert. */
  lemma {:induction false} BoundRunChangesNothing(w: World, q: Publisher, req: Request, n: nat)
    requires Current(w, q, req) && KeyedRows(w) && req.Row() in w.db
    requires q.Registering? || q.Selecting? || q.Feeding? || q.Confirming? || q.Reading? || q.Published? || q.Stopped?
    ensures Alone(w, q, n).0 == w
    decreases n
  {
    if n > 0 {
      CalmStep(w, q, req);
      BoundRunChangesNothing(w, PublishStep(w, q, CALM).1, req, n - 1);
    }
  }

  /** Every reachable world satisfies the hypothesis of the recovery theorems. */
  lemma ReachableRowsAreKeyed(u: Upsert, acts: seq<Act>)
    ensures KeyedRows(Exec(u, acts).world)
  {
    Reachable(u, acts);
    var w := Exec(u, acts).world;
    forall rk | rk in w.db ensures RowOf(w.db[rk].binding) == rk { assert RowOk(w, rk); }
  }
}
