/** What a publication answers, whatever interleaves: the binding that its own row holds, of its own request. */
module HomeMirrorAnswers {
  import opened Optional
  import opened HomeMirror

  /** The row of the binding holds it. */
  ghost predicate Bound(w: World, b: Binding) { RowOf(b) in w.db && w.db[RowOf(b)].binding == b }

  /** The binding is one of this request. */
  ghost predicate Of(b: Binding, req: Request) {
    && b.source == req.source && b.identity == req.identity && b.key == req.key
    && b.publication == Json(req.record, Some(req.identity.card), 0)
  }

  ghost predicate SeenOk(w: World, req: Request, all: map<RowKey, Row>) {
    var rk := RowKey(req.source.sourceId, req.identity);
    rk in all ==> Of(all[rk].binding, req) && Bound(w, all[rk].binding)
  }

  ghost predicate AnswerOk(w: World, q: Publisher) {
    match q
    case Feeding(req, all) => SeenOk(w, req, all)
    case Confirming(req, all) => SeenOk(w, req, all)
    case Reading(req, all) => SeenOk(w, req, all)
    case Published(b) => Bound(w, b)
    case _ => true
  }

  lemma AnswerStays(w: World, w': World, q: Publisher)
    requires AnswerOk(w, q) && Extends(w, w')
    ensures AnswerOk(w', q)
  {
  }

  lemma SelectedRows(w: World, req: Request)
    requires WorldOk(w) && !Refuses(req, w.db)
    ensures SeenOk(w, req, w.db)
  {
    var rk := RowKey(req.source.sourceId, req.identity);
    if rk in w.db { assert RowOk(w, rk); }
  }

  /** A step that answers, answers a binding of its request that its row holds. */
  lemma StepAnswers(w: World, q: Publisher, a: Answer)
    requires WorldOk(w) && AnswerOk(w, q)
    ensures AnswerOk(PublishStep(w, q, a).0, PublishStep(w, q, a).1)
    ensures var q' := PublishStep(w, q, a).1; q'.Published? && !q.Published? ==> Of(q'.binding, q.req)
  {
    if q.Selecting? && !Refuses(q.req, w.db) { SelectedRows(w, q.req); }
    hide WorldOk, Refuses, Predecessor, UnboundSameBusiness, ReadLegacy, InsertRow, StoreBytes, PutAllowed;
  }

  ghost predicate AnswersIn(s: State, p: nat) {
    p in s.procs && s.procs[p].Publishing? ==> AnswerOk(s.world, s.procs[p].publisher)
  }

  lemma NextAnswers(u: Upsert, s: State, act: Act, p: nat)
    requires Inv(s) && AnswersIn(s, p)
    ensures AnswersIn(Next(u, s, act), p)
  {
    NextKeeps(u, s, act);
    hide Inv, AnswerOk, PublishStep, CloseStep, Extends;
    if p in s.procs && s.procs[p].Publishing? {
      if act.Go? && act.p == p {
        WorldIsOk(s);
        StepAnswers(s.world, s.procs[p].publisher, act.answer);
      } else {
        AnswerStays(s.world, Next(u, s, act).world, s.procs[p].publisher);
      }
    }
    if act.Publish? { BeginsOk(Next(u, s, act).world, act.req); }
  }

  lemma WorldIsOk(s: State)
    requires Inv(s)
    ensures WorldOk(s.world)
  {}

  lemma BeginsOk(w: World, req: Request)
    ensures AnswerOk(w, Registering(req))
  {}

  lemma {:induction false} AnswersOk(u: Upsert, acts: seq<Act>, p: nat)
    ensures AnswersIn(Exec(u, acts), p)
  {
    if acts != [] {
      var before := acts[..|acts| - 1];
      AnswersOk(u, before, p);
      Reachable(u, before);
      hide AnswersIn, Inv;
      NextAnswers(u, Exec(u, before), acts[|acts| - 1], p);
    }
  }

  /** In every interleaving, a publication that returns answers a binding of its own request, that its row holds
      then and for good, and that names a written version of the legacy key with the request's bytes. */
  lemma PublishedIsBound(u: Upsert, acts: seq<Act>, p: nat, a: Answer, q: Publisher)
    requires p in Exec(u, acts).procs && Exec(u, acts).procs[p] == Publishing(q) && !q.Published?
    requires PublishStep(Exec(u, acts).world, q, a).1.Published?
    ensures
      var w, b := PublishStep(Exec(u, acts).world, q, a).0, PublishStep(Exec(u, acts).world, q, a).1.binding;
      && Of(b, q.req) && Bound(w, b)
      && b.publishedETag < |w.history| && w.history[b.publishedETag].key == q.req.key
      && w.history[b.publishedETag].bytes == Json(q.req.record, Some(q.req.identity.card), 0)
  {
    AnswersOk(u, acts, p);
    Reachable(u, acts);
    var w := Exec(u, acts).world;
    StepAnswers(w, q, a);
    assert ProcOk(w, Publishing(q));
    PublishStepKeeps(w, q, a);
    var r := PublishStep(w, q, a);
    assert RowOk(r.0, RowOf(r.1.binding));
  }

  /** A binding that was inserted is found although the reply of the insert was lost, and an insert that did not
      take effect publishes nothing. */
  lemma InsertedIsFound(w: World, req: Request, etag: nat, a: Answer, b: Answer, c: Answer)
    requires RowKey(req.source.sourceId, req.identity) !in w.db
    requires forall rk :: rk in w.db && w.db[rk].binding.key == req.key ==>
      w.db[rk].binding.source.sourceId == req.source.sourceId && w.db[rk].binding.identity.card == req.identity.card
    ensures
      var inserted := PublishStep(w, Inserting(req, etag), a);
      var once := PublishStep(inserted.0, inserted.1, b);
      var twice := PublishStep(once.0, once.1, c);
      var binding := Binding(req.source, req.identity, req.key, Json(req.record, Some(req.identity.card), 0), etag);
      if a.ok then
        && twice.1 == Published(binding) && (!a.lost ==> once.1 == Published(binding))
        && twice.0 == w.(db := w.db[RowKey(req.source.sourceId, req.identity) := Row(binding, None)])
      else twice == (w, Stopped)
  {
  }
}
