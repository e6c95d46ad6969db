/** The home mirror protocol of scripts/home-feed/bridge.ts: publishers, closers and forwarders keep a
    SQL binding table and a legacy key-value record in step, while other publishers, legacy editors and
    crashes interleave between any two awaits.

    A version (ETag) is the position of its write in the history, so every write gets a fresh one.
    Hashing is injective, so a record's SHA-256 is represented by the bytes themselves. */
module HomeMirror {
  import opened Optional

  // ---- Data ---------------------------------------------------------------------------------------

  /** `details` stands for the agent DID and the two database references of a registered source. */
  datatype Source = Source(sourceId: nat, details: nat)
  datatype Identity = Identity(card: nat, revision: nat, issuance: nat)
  /** The primary key of feed_sitrep_mirrors. */
  datatype RowKey = RowKey(sourceId: nat, identity: Identity)
  datatype Key = Key(kind: nat, id: nat)
  datatype Record = Record(kind: nat, id: nat, status: nat, updatedAt: nat, content: nat)
  /** Stored bytes: not a valid board record, or a record with an optional card UUID in some JSON layout. */
  datatype Bytes = Unreadable(raw: nat) | Json(record: Record, cardUuid: Option<nat>, layout: nat)
  datatype Binding = Binding(source: Source, identity: Identity, key: Key, publication: Bytes, publishedETag: nat)
  datatype Receipt = Receipt(responseId: nat, expectedETag: nat, closedETag: nat, status: nat, observedAt: nat)
  datatype Row = Row(binding: Binding, receipt: Option<Receipt>)
  datatype Writer = Editor | PublisherOf(sourceId: nat, card: nat) | CloserOf(row: RowKey)
  datatype Write = Write(key: Key, bytes: Bytes, author: Writer, replaced: Option<nat>)
  /** A saved owner response: `closes` when its payload is a decision or completion, not a thread message. */
  datatype Response = Response(id: nat, closes: bool)
  datatype Delivery = Delivery(row: RowKey, response: Response, receipt: Option<Receipt>)
  datatype World = World(db: map<RowKey, Row>, kv: map<Key, nat>, history: seq<Write>,
                         sources: map<nat, Source>, deliveries: seq<Delivery>)

  /** The outcome of applyUpsert(existing, patch, now), a pure function of the sitrep package. */
  datatype Upserted = Upserted(changed: bool, record: Record)
  type Upsert = (Record, nat, nat) -> Option<Upserted>

  /** The bytes JSON.stringify gives for a record with its card UUID. */
  function Publication(record: Record, card: nat): Bytes { Json(record, Some(card), 0) }

  // ---- The legacy store ---------------------------------------------------------------------------

  datatype Read = Absent | Refused | Head(etag: nat, bytes: Bytes)

  function ReadLegacy(w: World, key: Key): Read {
    if key !in w.kv then Absent
    else if w.kv[key] >= |w.history| then Refused
    else
      var bytes := w.history[w.kv[key]].bytes;
      if bytes.Unreadable? || bytes.record.kind != key.kind then Refused else Head(w.kv[key], bytes)
  }

  /** A conditional put: `If-Match: etag`, or `If-None-Match: *` when no head was read. */
  predicate PutAllowed(w: World, key: Key, ifMatch: Option<nat>) {
    match ifMatch
    case None => key !in w.kv
    case Some(e) => key in w.kv && w.kv[key] == e
  }

  function StoreBytes(w: World, key: Key, bytes: Bytes, author: Writer): World {
    var replaced := if key in w.kv then Some(w.kv[key]) else None;
    w.(kv := w.kv[key := |w.history|], history := w.history + [Write(key, bytes, author, replaced)])
  }

  // ---- Publishing ---------------------------------------------------------------------------------

  /** `valid` stands for the schema and card-payload checks made before anything is awaited. */
  datatype Request = Request(source: Source, identity: Identity, key: Key, record: Record, valid: bool) {
    function Row(): RowKey { RowKey(source.sourceId, identity) }
    function Body(): Bytes { Publication(record, identity.card) }
    function Bound(etag: nat): Binding { Binding(source, identity, key, Body(), etag) }
  }

  /** What the environment answers at one await: `ok` is the answer to a yes/no question or whether a
      statement took effect, `lost` says that the reply to a write was lost. The rest is used by closing. */
  datatype Answer = Answer(ok: bool, lost: bool, choice: Option<Selection>, now: nat, record: Record)
  datatype Selection = Selection(responseId: nat, patch: nat)

  /** One constructor per await of publishHomeMirror, named for what is about to happen. */
  datatype Publisher =
    | Registering(req: Request)
    | Selecting(req: Request)
    | Feeding(req: Request, all: map<RowKey, Row>)
    | Confirming(req: Request, all: map<RowKey, Row>)
    | Reading(req: Request, all: map<RowKey, Row>)
    | Rechecking(req: Request, head: Option<nat>)
    | Putting(req: Request, head: Option<nat>)
    | ReadingBack(req: Request)
    | Inserting(req: Request, etag: nat)
    | Replaying(req: Request, etag: nat, erred: bool)
    | Published(binding: Binding)
    | Stopped

  predicate SameOwner(a: Binding, sourceId: nat, card: nat) {
    a.source.sourceId == sourceId && a.identity.card == card
  }

  /** The checks on the selected rows, before the card is published. */
  predicate Refuses(req: Request, all: map<RowKey, Row>) {
    || (req.Row() in all &&
        var b := all[req.Row()].binding;
        b.source != req.source || b.key != req.key || b.publication != req.Body())
    || exists rk :: rk in all && all[rk].binding.key == req.key
                    && !SameOwner(all[rk].binding, req.source.sourceId, req.identity.card)
  }

  predicate Predecessor(req: Request, all: map<RowKey, Row>, etag: nat, bytes: Bytes) {
    exists rk :: rk in all && all[rk].binding.key == req.key
                 && SameOwner(all[rk].binding, req.source.sourceId, req.identity.card)
                 && all[rk].binding.publishedETag == etag && all[rk].binding.publication == bytes
  }

  predicate UnboundSameBusiness(req: Request, bytes: Bytes) {
    bytes.Json? && bytes.cardUuid == None && bytes.record == req.record
  }

  /** The guarded INSERT ... WHERE NOT EXISTS ... ON CONFLICT DO NOTHING, one atomic statement. */
  function InsertRow(w: World, b: Binding): World {
    var rk := RowKey(b.source.sourceId, b.identity);
    if rk in w.db
       || exists r ::
         r in w.db && w.db[r].binding.key == b.key && !SameOwner(w.db[r].binding, b.source.sourceId, b.identity.card)
    then w
    else w.(db := w.db[rk := Row(b, None)])
  }

  function AfterFirstRead(w: World, req: Request, all: map<RowKey, Row>): Publisher {
    match ReadLegacy(w, req.key)
    case Refused => Stopped
    case Absent => if req.Row() in all then Stopped else Rechecking(req, None)
    case Head(etag, bytes) =>
      if req.Row() in all then
        if etag == all[req.Row()].binding.publishedETag && bytes == req.Body() then Published(all[req.Row()].binding)
        else Stopped
      else if bytes == req.Body() then Inserting(req, etag)
      else if Predecessor(req, all, etag, bytes) || UnboundSameBusiness(req, bytes) then Rechecking(req, Some(etag))
      else Stopped
  }

  /** One await-to-await stretch of publishHomeMirror. */
  function PublishStep(w: World, q: Publisher, a: Answer): (World, Publisher) {
    match q
    case Registering(req) =>
      (w, if req.valid && req.key == Key(req.record.kind, req.record.id)
             && req.source.sourceId in w.sources && w.sources[req.source.sourceId] == req.source
          then Selecting(req) else Stopped)
    case Selecting(req) => (w, if Refuses(req, w.db) then Stopped else Feeding(req, w.db))
    case Feeding(req, all) => (w, if a.ok then Confirming(req, all) else Stopped)
    case Confirming(req, all) =>
      (w, if !a.ok then Stopped
          else if req.Row() in all && all[req.Row()].receipt.Some? then Published(all[req.Row()].binding)
          else Reading(req, all))
    case Reading(req, all) => (w, AfterFirstRead(w, req, all))
    case Rechecking(req, head) => (w, if a.ok then Putting(req, head) else Stopped)
    case Putting(req, head) =>
      if PutAllowed(w, req.key, head) then
        (StoreBytes(w, req.key, req.Body(), PublisherOf(req.source.sourceId, req.identity.card)),
         if a.lost then Stopped else ReadingBack(req))
      else (w, Stopped)
    case ReadingBack(req) =>
      var head := ReadLegacy(w, req.key);
      (w, if head.Head? && head.bytes == req.Body() then Inserting(req, head.etag) else Stopped)
    case Inserting(req, etag) =>
      (if a.ok then InsertRow(w, req.Bound(etag)) else w, Replaying(req, etag, !a.ok || a.lost))
    case Replaying(req, etag, erred) =>
      (w, if req.Row() !in w.db || w.db[req.Row()].binding != req.Bound(etag) then Stopped
          else if erred then Replaying(req, etag, false)
          else Published(w.db[req.Row()].binding))
    case Published(_) => (w, q)
    case Stopped => (w, q)
  }

  // ---- Closing ------------------------------------------------------------------------------------

  datatype Plan = Plan(selection: Selection, expected: Option<Upserted>, expectedETag: nat, outcome: Upserted)

  /** One constructor per await of closeHomeMirror that touches shared state. */
  datatype Closer =
    | Loading(row: RowKey)
    | Deciding(row: RowKey, seen: Row)
    | Examining(row: RowKey, seen: Row, record: Record, selection: Selection)
    | Permitting(row: RowKey, seen: Row, plan: Plan)
    | Patching(row: RowKey, seen: Row, plan: Plan)
    | Verifying(row: RowKey, seen: Row, plan: Plan)
    | Recording(row: RowKey, seen: Row, receipt: Receipt)
    | Reloading(row: RowKey, receipt: Receipt)
    | Closed(row: RowKey, result: Option<Receipt>)
    | Failed

  function ReceiptFor(plan: Plan, closedETag: nat, now: nat): Receipt {
    Receipt(plan.selection.responseId, plan.expectedETag, closedETag, plan.outcome.record.status, now)
  }

  /** From the legacy read to the decision to close (bridge.ts:293-303). */
  function Examine(u: Upsert, w: World, rk: RowKey, seen: Row, record: Record, sel: Selection, now: nat): Closer {
    var b := seen.binding;
    match ReadLegacy(w, b.key)
    case Refused => Failed
    case Absent => Closed(rk, None)
    case Head(etag, bytes) =>
      if bytes.cardUuid != Some(b.identity.card) || bytes.record.id != b.key.id then Closed(rk, None)
      else if seen.receipt.Some? && etag == seen.receipt.value.closedETag
        && seen.receipt.value.responseId == sel.responseId
      then Closed(rk, seen.receipt)
      else
        var expected := u(record, sel.patch, bytes.record.updatedAt);
        var matchingClosed := expected.Some? && Publication(expected.value.record, b.identity.card) == bytes;
        var ownPrevious := seen.receipt.Some? && seen.receipt.value.closedETag == etag
          && seen.receipt.value.status == bytes.record.status;
        if bytes != b.publication && !matchingClosed && !ownPrevious then Closed(rk, None)
        else if bytes == b.publication && etag != b.publishedETag then Closed(rk, None)
        else
          var planned := u(bytes.record, sel.patch, now);
          if planned.None? then Failed else Permitting(rk, seen, Plan(sel, expected, etag, planned.value))
  }

  /** One await-to-await stretch of closeHomeMirror. Reads whose result the environment may choose
      freely (registration, current card, the response log) are merged into one answer. */
  function CloseStep(u: Upsert, w: World, c: Closer, a: Answer): (World, Closer) {
    match c
    case Loading(rk) => (w, if rk in w.db then Deciding(rk, w.db[rk]) else Closed(rk, None))
    case Deciding(rk, seen) =>
      // The current card's payload must reproduce the published bytes.
      (w, if !a.ok then Failed
          else if a.choice.None? || Publication(a.record, seen.binding.identity.card) != seen.binding.publication
            then Closed(rk, None)
          else Examining(rk, seen, a.record, a.choice.value))
    case Examining(rk, seen, record, sel) => (w, Examine(u, w, rk, seen, record, sel, a.now))
    case Permitting(rk, seen, plan) =>
      (w, if !a.ok then Closed(rk, None)
          else if plan.outcome.changed then Patching(rk, seen, plan)
          else Recording(rk, seen, ReceiptFor(plan, plan.expectedETag, a.now)))
    case Patching(rk, seen, plan) =>
      if PutAllowed(w, seen.binding.key, Some(plan.expectedETag)) then
        (StoreBytes(w, seen.binding.key, Publication(plan.outcome.record, seen.binding.identity.card), CloserOf(rk)),
         if a.lost then Failed else Verifying(rk, seen, plan))
      else (w, Failed)
    case Verifying(rk, seen, plan) =>
      var head := ReadLegacy(w, seen.binding.key);
      (w, if head.Head? && head.bytes == Publication(plan.outcome.record, seen.binding.identity.card)
          then Recording(rk, seen, ReceiptFor(plan, head.etag, a.now)) else Failed)
    case Recording(rk, seen, receipt) =>
      // UPDATE ... WHERE close_receipt_json IS <the receipt loaded at the start>
      (if a.ok && rk in w.db && w.db[rk].receipt == seen.receipt
       then w.(db := w.db[rk := w.db[rk].(receipt := Some(receipt))]) else w,
       if a.lost then Failed else Reloading(rk, receipt))
    case Reloading(rk, receipt) =>
      (w, if rk in w.db && w.db[rk].receipt == Some(receipt) then Closed(rk, Some(receipt)) else Failed)
    case Closed(_, _) => (w, c)
    case Failed => (w, c)
  }

  // ---- Forwarding ---------------------------------------------------------------------------------

  datatype Proc =
    | Publishing(publisher: Publisher)
    | Closing(closer: Closer)
    | Finding(row: RowKey, response: Response)
    | ClosingFirst(binding: Binding, response: Response, closer: Closer)
    | HeadChecking(binding: Binding, response: Response, closing: Receipt)
    | CardChecking(binding: Binding, response: Response, receipt: Option<Receipt>)
    | Delivering(binding: Binding, response: Response, receipt: Option<Receipt>)
    | Ended

  function RowOf(b: Binding): RowKey { RowKey(b.source.sourceId, b.identity) }

  /** One await-to-await stretch of whichever operation the process runs. */
  function ProcStep(u: Upsert, w: World, q: Proc, a: Answer): (World, Proc) {
    match q
    case Publishing(p) => var r := PublishStep(w, p, a); (r.0, Publishing(r.1))
    case Closing(c) => var r := CloseStep(u, w, c, a); (r.0, Closing(r.1))
    case Finding(rk, response) =>
      (w, if rk !in w.db || !a.ok then Ended
          else if response.closes then ClosingFirst(w.db[rk].binding, response, Loading(rk))
          else CardChecking(w.db[rk].binding, response, None))
    case ClosingFirst(b, response, c) =>
      if c.Closed? then
        (w, if c.result.None? || c.result.value.responseId != response.id then Ended
          else HeadChecking(b, response, c.result.value))
      else if c.Failed? then (w, Ended)
      else var r := CloseStep(u, w, c, a); (r.0, ClosingFirst(b, response, r.1))
    case HeadChecking(b, response, receipt) =>
      var head := ReadLegacy(w, b.key);
      (w, if head.Head? && head.etag == receipt.closedETag && head.bytes.cardUuid == Some(b.identity.card)
             && head.bytes.record.status == receipt.status
          then CardChecking(b, response, Some(receipt)) else Ended)
    case CardChecking(b, response, receipt) => (w, if a.ok then Delivering(b, response, receipt) else Ended)
    case Delivering(b, response, receipt) =>
      (w.(deliveries := w.deliveries + [Delivery(RowOf(b), response, receipt)]), Ended)
    case Ended => (w, q)
  }

  // ---- The whole system ---------------------------------------------------------------------------

  datatype State = State(world: World, procs: map<nat, Proc>)

  datatype Act =
    | Publish(p: nat, req: Request)
    | Close(p: nat, row: RowKey)
    | Forward(p: nat, row: RowKey, response: Response)
    | Go(p: nat, answer: Answer)
    | Crash(p: nat)
    | Edit(key: Key, bytes: Bytes)
    | Erase(key: Key)
    | Register(sources: map<nat, Source>)

  const EMPTY_WORLD := World(map[], map[], [], map[], [])

  function Next(u: Upsert, s: State, act: Act): State {
    match act
    case Publish(p, req) => s.(procs := s.procs[p := Publishing(Registering(req))])
    case Close(p, rk) => s.(procs := s.procs[p := Closing(Loading(rk))])
    case Forward(p, rk, response) => s.(procs := s.procs[p := Finding(rk, response)])
    case Go(p, a) =>
      if p !in s.procs then s else
      var r := ProcStep(u, s.world, s.procs[p], a);
      State(r.0, s.procs[p := r.1])
    case Crash(p) => s.(procs := s.procs - {p})
    case Edit(key, bytes) => s.(world := StoreBytes(s.world, key, bytes, Editor))
    case Erase(key) => s.(world := s.world.(kv := s.world.kv - {key}))
    case Register(sources) => s.(world := s.world.(sources := sources))
  }

  /** The state after any sequence of acts, in any interleaving. */
  function Exec(u: Upsert, acts: seq<Act>): State {
    if acts == [] then State(EMPTY_WORLD, map[])
    else Next(u, Exec(u, acts[..|acts| - 1]), acts[|acts| - 1])
  }

  // ---- Invariants ---------------------------------------------------------------------------------

  ghost predicate Written(w: World, etag: nat, key: Key, bytes: Bytes) {
    etag < |w.history| && w.history[etag].key == key && w.history[etag].bytes == bytes
  }

  /** A row carries its own key and names a version that some writer really wrote for its legacy key. */
  ghost predicate RowOk(w: World, rk: RowKey) requires rk in w.db {
    var b := w.db[rk].binding;
    && rk == RowOf(b)
    && Written(w, b.publishedETag, b.key, b.publication)
    && b.publication.Json? && b.publication.cardUuid == Some(b.identity.card)
  }

  ghost predicate OneOwnerPerKey(db: map<RowKey, Row>) {
    forall r1, r2 :: r1 in db && r2 in db && db[r1].binding.key == db[r2].binding.key ==>
      SameOwner(db[r1].binding, db[r2].binding.source.sourceId, db[r2].binding.identity.card)
  }

  /** What a publication for (sourceId, card) may overwrite: a version bound to that same owner, or a
      record without card UUID that holds the same business content. */
  ghost predicate Replaceable(w: World, key: Key, sourceId: nat, card: nat, record: Record, etag: nat) {
    && etag < |w.history| && w.history[etag].key == key
    && (|| (exists rk ::
      rk in w.db && w.db[rk].binding.publishedETag == etag && SameOwner(w.db[rk].binding, sourceId, card))
        || (w.history[etag].bytes.Json? && w.history[etag].bytes.cardUuid == None
          && w.history[etag].bytes.record == record))
  }

  ghost predicate WriteOk(w: World, i: nat) requires i < |w.history| {
    var wr := w.history[i];
    wr.replaced.Some? ==>
      && wr.replaced.value < i && w.history[wr.replaced.value].key == wr.key
      && (wr.author.PublisherOf? ==>
            wr.bytes.Json? && wr.bytes.cardUuid == Some(wr.author.card)
            && Replaceable(w, wr.key, wr.author.sourceId, wr.author.card, wr.bytes.record, wr.replaced.value))
      && (wr.author.CloserOf? ==>
            w.history[wr.replaced.value].bytes.Json?
            && w.history[wr.replaced.value].bytes.cardUuid == Some(wr.author.row.identity.card))
  }

  ghost predicate WorldOk(w: World) {
    && (forall k :: k in w.kv ==> w.kv[k] < |w.history| && w.history[w.kv[k]].key == k)
    && (forall rk :: rk in w.db ==> RowOk(w, rk))
    && OneOwnerPerKey(w.db)
    && (forall i :: 0 <= i < |w.history| ==> WriteOk(w, i))
  }

  /** Bindings are immutable and the history only grows. */
  ghost predicate Extends(w: World, w': World) {
    && |w.history| <= |w'.history|
    && (forall i :: 0 <= i < |w.history| ==> w'.history[i] == w.history[i])
    && (forall rk :: rk in w.db ==> rk in w'.db && w'.db[rk].binding == w.db[rk].binding)
  }

  ghost predicate PublisherOk(w: World, q: Publisher) {
    match q
    case Feeding(_, all) => SnapshotOk(w, all)
    case Confirming(_, all) => SnapshotOk(w, all)
    case Reading(_, all) => SnapshotOk(w, all)
    case Rechecking(req, head) => head.Some? ==> ReplaceableBy(w, req, head.value)
    case Putting(req, head) => head.Some? ==> ReplaceableBy(w, req, head.value)
    case Inserting(req, etag) => Written(w, etag, req.key, req.Body())
    case _ => true
  }

  ghost predicate ReplaceableBy(w: World, req: Request, etag: nat) {
    Replaceable(w, req.key, req.source.sourceId, req.identity.card, req.record, etag)
  }

  ghost predicate SnapshotOk(w: World, all: map<RowKey, Row>) {
    forall rk :: rk in all ==> rk in w.db && w.db[rk].binding == all[rk].binding
  }

  /** What a close may overwrite: the published version, a head that already equals the selected patch
      applied, or the version its last receipt recorded. */
  ghost predicate CloseTarget(w: World, seen: Row, plan: Plan) {
    var b := seen.binding;
    && plan.expectedETag < |w.history| && w.history[plan.expectedETag].key == b.key
    && w.history[plan.expectedETag].bytes.Json? && w.history[plan.expectedETag].bytes.cardUuid == Some(b.identity.card)
    && (|| plan.expectedETag == b.publishedETag
        || (plan.expected.Some? && w.history[plan.expectedETag].bytes
          == Publication(plan.expected.value.record, b.identity.card))
        || (seen.receipt.Some? && plan.expectedETag == seen.receipt.value.closedETag))
  }

  ghost predicate CloserOk(w: World, c: Closer) {
    match c
    case Deciding(rk, seen) => RowSeen(w, rk, seen)
    case Examining(rk, seen, _, _) => RowSeen(w, rk, seen)
    case Permitting(rk, seen, plan) => RowSeen(w, rk, seen) && CloseTarget(w, seen, plan)
    case Patching(rk, seen, plan) => RowSeen(w, rk, seen) && CloseTarget(w, seen, plan)
    case Verifying(rk, seen, plan) => RowSeen(w, rk, seen)
    case _ => true
  }

  ghost predicate RowSeen(w: World, rk: RowKey, seen: Row) {
    rk in w.db && w.db[rk].binding == seen.binding && rk == RowOf(seen.binding)
  }

  ghost predicate ProcOk(w: World, q: Proc) {
    match q
    case Publishing(p) => PublisherOk(w, p)
    case Closing(c) => CloserOk(w, c)
    case ClosingFirst(_, _, c) => CloserOk(w, c)
    case _ => true
  }

  ghost predicate Inv(s: State) {
    WorldOk(s.world) && forall p :: p in s.procs ==> ProcOk(s.world, s.procs[p])
  }

  // ---- Every step keeps the invariant -------------------------------------------------------------

  lemma StableUnderExtension(w: World, w': World, q: Proc)
    requires Extends(w, w') && ProcOk(w, q)
    ensures ProcOk(w', q)
  {
    match q
    case Publishing(Rechecking(req, Some(e))) =>
      ReplaceableStable(w, w', req.key, req.source.sourceId, req.identity.card, req.record, e);
    case Publishing(Putting(req, Some(e))) =>
      ReplaceableStable(w, w', req.key, req.source.sourceId, req.identity.card, req.record, e);
    case _ =>
  }

  lemma ReplaceableStable(w: World, w': World, key: Key, sourceId: nat, card: nat, record: Record, e: nat)
    requires Extends(w, w') && Replaceable(w, key, sourceId, card, record, e)
    ensures Replaceable(w', key, sourceId, card, record, e)
  {
    if exists rk :: rk in w.db && w.db[rk].binding.publishedETag == e && SameOwner(w.db[rk].binding, sourceId, card) {
      var rk :| rk in w.db && w.db[rk].binding.publishedETag == e && SameOwner(w.db[rk].binding, sourceId, card);
      assert rk in w'.db && w'.db[rk].binding == w.db[rk].binding;
    }
  }

  lemma WritesStable(w: World, w': World)
    requires Extends(w, w') && WorldOk(w)
    ensures forall i :: 0 <= i < |w.history| ==> WriteOk(w', i)
  {
    forall i | 0 <= i < |w.history| ensures WriteOk(w', i) {
      var wr := w.history[i];
      assert WriteOk(w, i);
      if wr.replaced.Some? && wr.author.PublisherOf? {
        ReplaceableStable(w, w', wr.key, wr.author.sourceId, wr.author.card, wr.bytes.record, wr.replaced.value);
      }
    }
  }

  /** A write keeps the world in order when what it replaces is what its writer may replace. */
  lemma StoreKeeps(w: World, key: Key, bytes: Bytes, author: Writer)
    requires WorldOk(w)
    requires author.PublisherOf? ==> bytes.Json? && bytes.cardUuid == Some(author.card)
    requires author.PublisherOf? && key in w.kv ==>
      Replaceable(w, key, author.sourceId, author.card, bytes.record, w.kv[key])
    requires author.CloserOf? && key in w.kv ==>
               w.history[w.kv[key]].bytes.Json? && w.history[w.kv[key]].bytes.cardUuid == Some(author.row.identity.card)
    ensures WorldOk(StoreBytes(w, key, bytes, author)) && Extends(w, StoreBytes(w, key, bytes, author))
  {
    var w' := StoreBytes(w, key, bytes, author);
    assert Extends(w, w');
    WritesStable(w, w');
    if author.PublisherOf? && key in w.kv {
      ReplaceableStable(w, w', key, author.sourceId, author.card, bytes.record, w.kv[key]);
    }
    assert WriteOk(w', |w.history|);
    forall rk | rk in w'.db ensures RowOk(w', rk) { assert RowOk(w, rk); }
  }

  /** The guard of the INSERT is what keeps one owner per legacy key. */
  lemma InsertKeepsOwner(w: World, b: Binding)
    requires OneOwnerPerKey(w.db)
    ensures OneOwnerPerKey(InsertRow(w, b).db)
  {
    var rk := RowKey(b.source.sourceId, b.identity);
    var db := InsertRow(w, b).db;
    forall r1, r2 | r1 in db && r2 in db && db[r1].binding.key == db[r2].binding.key
      ensures SameOwner(db[r1].binding, db[r2].binding.source.sourceId, db[r2].binding.identity.card)
    {
      if r1 != rk { assert r1 in w.db; }
      if r2 != rk { assert r2 in w.db; }
    }
  }

  lemma InsertKeeps(w: World, b: Binding)
    requires WorldOk(w) && Written(w, b.publishedETag, b.key, b.publication)
    requires b.publication.Json? && b.publication.cardUuid == Some(b.identity.card)
    ensures WorldOk(InsertRow(w, b)) && Extends(w, InsertRow(w, b))
  {
    var w' := InsertRow(w, b);
    assert w'.history == w.history && w'.kv == w.kv;
    assert Extends(w, w');
    WritesStable(w, w');
    InsertKeepsOwner(w, b);
    forall rk | rk in w'.db ensures RowOk(w', rk) { if rk in w.db { assert RowOk(w, rk); } }
  }

  /** Nothing but receipts, sources, deliveries or erased heads changed. */
  lemma QuietChangeKeeps(w: World, w': World)
    requires WorldOk(w) && w'.history == w.history && w'.db.Keys == w.db.Keys
    requires forall rk :: rk in w.db ==> w'.db[rk].binding == w.db[rk].binding
    requires forall k :: k in w'.kv ==> k in w.kv && w'.kv[k] == w.kv[k]
    ensures WorldOk(w') && Extends(w, w')
  {
    WritesStable(w, w');
    forall rk | rk in w'.db ensures RowOk(w', rk) { assert RowOk(w, rk); }
    forall r1, r2 | r1 in w'.db && r2 in w'.db && w'.db[r1].binding.key == w'.db[r2].binding.key
      ensures SameOwner(w'.db[r1].binding, w'.db[r2].binding.source.sourceId, w'.db[r2].binding.identity.card)
    {
      assert r1 in w.db && r2 in w.db;
    }
  }

  lemma PublishReadKeeps(w: World, q: Publisher, a: Answer)
    requires WorldOk(w) && PublisherOk(w, q) && !q.Putting? && !q.Inserting?
    ensures var r := PublishStep(w, q, a); r.0 == w && PublisherOk(w, r.1)
  {
    hide OneOwnerPerKey, WriteOk;
  }

  lemma PublishWriteKeeps(w: World, q: Publisher, a: Answer)
    requires WorldOk(w) && PublisherOk(w, q) && (q.Putting? || q.Inserting?)
    ensures var r := PublishStep(w, q, a); WorldOk(r.0) && Extends(w, r.0) && PublisherOk(r.0, r.1)
  {
    match q
    case Putting(req, head) =>
      if PutAllowed(w, req.key, head) {
        StoreKeeps(w, req.key, req.Body(), PublisherOf(req.source.sourceId, req.identity.card));
      }
    case Inserting(req, etag) => InsertKeeps(w, req.Bound(etag));
  }

  lemma PublishStepKeeps(w: World, q: Publisher, a: Answer)
    requires WorldOk(w) && PublisherOk(w, q)
    ensures var r := PublishStep(w, q, a); WorldOk(r.0) && Extends(w, r.0) && PublisherOk(r.0, r.1)
  {
    hide PublishStep, PublisherOk, WorldOk;
    if q.Putting? || q.Inserting? { PublishWriteKeeps(w, q, a); } else { PublishReadKeeps(w, q, a); }
  }

  lemma ExamineKeeps(u: Upsert, w: World, rk: RowKey, seen: Row, record: Record, sel: Selection, now: nat)
    requires WorldOk(w) && RowSeen(w, rk, seen)
    ensures CloserOk(w, Examine(u, w, rk, seen, record, sel, now))
  {
    assert RowOk(w, rk);
  }

  lemma CloseStepKeeps(u: Upsert, w: World, c: Closer, a: Answer)
    requires WorldOk(w) && CloserOk(w, c)
    ensures var r := CloseStep(u, w, c, a); WorldOk(r.0) && Extends(w, r.0) && CloserOk(r.0, r.1)
  {
    match c
    case Loading(rk) => if rk in w.db { assert RowOk(w, rk); }
    case Examining(rk, seen, record, sel) => ExamineKeeps(u, w, rk, seen, record, sel, a.now);
    case Patching(rk, seen, plan) =>
      if PutAllowed(w, seen.binding.key, Some(plan.expectedETag)) {
        StoreKeeps(w, seen.binding.key, Publication(plan.outcome.record, seen.binding.identity.card), CloserOf(rk));
      }
    case Recording(rk, seen, receipt) => QuietChangeKeeps(w, CloseStep(u, w, c, a).0);
    case _ =>
  }

  lemma ProcStepKeeps(u: Upsert, w: World, q: Proc, a: Answer)
    requires WorldOk(w) && ProcOk(w, q)
    ensures var r := ProcStep(u, w, q, a); WorldOk(r.0) && Extends(w, r.0) && ProcOk(r.0, r.1)
  {
    match q
    case Publishing(p) => PublishStepKeeps(w, p, a);
    case Closing(c) => CloseStepKeeps(u, w, c, a);
    case ClosingFirst(_, _, c) => if !c.Closed? && !c.Failed? { CloseStepKeeps(u, w, c, a); }
    case Delivering(b, response, receipt) => QuietChangeKeeps(w, ProcStep(u, w, q, a).0);
    case _ =>
  }

  lemma NextKeepsWorld(u: Upsert, s: State, act: Act)
    requires Inv(s)
    ensures WorldOk(Next(u, s, act).world) && Extends(s.world, Next(u, s, act).world)
  {
    match act
    case Go(p, a) => if p in s.procs { ProcStepKeeps(u, s.world, s.procs[p], a); }
    case Edit(key, bytes) => StoreKeeps(s.world, key, bytes, Editor);
    case Erase(key) => QuietChangeKeeps(s.world, Next(u, s, act).world);
    case Register(_) => QuietChangeKeeps(s.world, Next(u, s, act).world);
    case _ =>
  }

  /** No act of any process, editor or crash breaks the invariant. */
  lemma NextKeeps(u: Upsert, s: State, act: Act)
    requires Inv(s)
    ensures Inv(Next(u, s, act)) && Extends(s.world, Next(u, s, act).world)
  {
    var s' := Next(u, s, act);
    NextKeepsWorld(u, s, act);
    forall p | p in s'.procs ensures ProcOk(s'.world, s'.procs[p]) {
      if act.Go? && act.p == p {
        ProcStepKeeps(u, s.world, s.procs[p], act.answer);
      } else if p in s.procs && s'.procs[p] == s.procs[p] {
        StableUnderExtension(s.world, s'.world, s.procs[p]);
      }
    }
  }

  lemma {:induction false} Reachable(u: Upsert, acts: seq<Act>)
    ensures Inv(Exec(u, acts))
  {
    if acts != [] {
      Reachable(u, acts[..|acts| - 1]);
      NextKeeps(u, Exec(u, acts[..|acts| - 1]), acts[|acts| - 1]);
    }
  }
}
