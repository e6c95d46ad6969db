/** In which order things happen, in every interleaving: the card is at home before its mirror is written, a close is
    permitted before it writes, and the card is checked again before a delivery. */
module HomeMirrorOrder {
  import opened Optional
  import opened HomeMirror
  import opened HomeMirrorSafety

  /** The i-th act of the run gave process p the answer yes while it was about to do this. */
  ghost predicate SaidYes(u: Upsert, acts: seq<Act>, p: nat, i: nat, q: Proc) {
    && i < |acts| && acts[i].Go? && acts[i].p == p && acts[i].answer.ok
    && p in Exec(u, acts[..i]).procs && Exec(u, acts[..i]).procs[p] == q
  }

  ghost predicate Granted(u: Upsert, acts: seq<Act>, p: nat, q: Proc) { exists i: nat :: SaidYes(u, acts, p, i, q) }

  /** The card was published at home, and found there. */
  ghost predicate AtHome(u: Upsert, acts: seq<Act>, p: nat, req: Request) {
    && (exists all :: Granted(u, acts, p, Publishing(Feeding(req, all))))
    && (exists all :: Granted(u, acts, p, Publishing(Confirming(req, all))))
  }

  /** What a publication has been granted by the time it is about to do this. */
  ghost predicate PublisherGranted(u: Upsert, acts: seq<Act>, p: nat, q: Publisher) {
    match q
    case Registering(_) => true
    case Selecting(_) => true
    case Feeding(_, _) => true
    case Confirming(req, _) => exists all :: Granted(u, acts, p, Publishing(Feeding(req, all)))
    case Reading(req, _) => AtHome(u, acts, p, req)
    case Rechecking(req, _) => AtHome(u, acts, p, req)
    case Putting(req, head) => AtHome(u, acts, p, req) && Granted(u, acts, p, Publishing(Rechecking(req, head)))
    case ReadingBack(req) =>
      AtHome(u, acts, p, req) && exists head :: Granted(u, acts, p, Publishing(Rechecking(req, head)))
    case Inserting(req, _) => AtHome(u, acts, p, req)
    case Replaying(req, _, _) => AtHome(u, acts, p, req)
    case Published(_) => exists req :: AtHome(u, acts, p, req)
    case Stopped => true
  }

  /** A close was told that the card is still current and no newer response is there. */
  ghost predicate Permitted(u: Upsert, acts: seq<Act>, p: nat, rk: RowKey, seen: Row, plan: Plan) {
    exists q :: CloserIn(q) == Some(Permitting(rk, seen, plan)) && Granted(u, acts, p, q)
  }

  ghost predicate CloserGranted(u: Upsert, acts: seq<Act>, p: nat, c: Closer) {
    match c
    case Patching(rk, seen, plan) => Permitted(u, acts, p, rk, seen, plan)
    case Verifying(rk, seen, plan) => Permitted(u, acts, p, rk, seen, plan)
    case Recording(rk, seen, r) => exists plan ::
      Permitted(u, acts, p, rk, seen, plan) && r == ReceiptFor(plan, r.closedETag, r.observedAt)
    case _ => true
  }

  ghost predicate ProcGranted(u: Upsert, acts: seq<Act>, p: nat, q: Proc) {
    match q
    case Publishing(pub) => PublisherGranted(u, acts, p, pub)
    case Closing(c) => CloserGranted(u, acts, p, c)
    case ClosingFirst(b, response, c) =>
      CloserGranted(u, acts, p, c) && Granted(u, acts, p, Finding(RowOf(b), response))
    case HeadChecking(b, response, _) => Granted(u, acts, p, Finding(RowOf(b), response))
    case CardChecking(b, response, _) => Granted(u, acts, p, Finding(RowOf(b), response))
    case Delivering(b, response, r) =>
      Granted(u, acts, p, Finding(RowOf(b), response)) && Granted(u, acts, p, CardChecking(b, response, r))
    case _ => true
  }

  // ---- Grants stay, and steps add them ------------------------------------------------------------

  lemma GrantedLater(u: Upsert, acts: seq<Act>, act: Act, p: nat, q: Proc)
    requires Granted(u, acts, p, q)
    ensures Granted(u, acts + [act], p, q)
  {
    hide Exec;
    var i: nat :| SaidYes(u, acts, p, i, q);
    assert (acts + [act])[..i] == acts[..i];
    assert SaidYes(u, acts + [act], p, i, q);
  }

  lemma GrantedNow(u: Upsert, acts: seq<Act>, p: nat, a: Answer, q: Proc)
    requires p in Exec(u, acts).procs && Exec(u, acts).procs[p] == q && a.ok
    ensures Granted(u, acts + [Go(p, a)], p, q)
  {
    assert (acts + [Go(p, a)])[..|acts|] == acts;
    assert SaidYes(u, acts + [Go(p, a)], p, |acts|, q);
  }

  lemma AtHomeLater(u: Upsert, acts: seq<Act>, act: Act, p: nat, req: Request)
    requires AtHome(u, acts, p, req)
    ensures AtHome(u, acts + [act], p, req)
  {
    hide Granted;
    var fed :| Granted(u, acts, p, Publishing(Feeding(req, fed)));
    var found :| Granted(u, acts, p, Publishing(Confirming(req, found)));
    GrantedLater(u, acts, act, p, Publishing(Feeding(req, fed)));
    GrantedLater(u, acts, act, p, Publishing(Confirming(req, found)));
  }

  lemma PermittedLater(u: Upsert, acts: seq<Act>, act: Act, p: nat, rk: RowKey, seen: Row, plan: Plan)
    requires Permitted(u, acts, p, rk, seen, plan)
    ensures Permitted(u, acts + [act], p, rk, seen, plan)
  {
    hide Granted;
    var q :| CloserIn(q) == Some(Permitting(rk, seen, plan)) && Granted(u, acts, p, q);
    GrantedLater(u, acts, act, p, q);
  }

  lemma PublisherLater(u: Upsert, acts: seq<Act>, act: Act, p: nat, q: Publisher)
    requires PublisherGranted(u, acts, p, q)
    ensures PublisherGranted(u, acts + [act], p, q)
  {
    hide Granted, AtHome;
    forall req | AtHome(u, acts, p, req) ensures AtHome(u, acts + [act], p, req) { AtHomeLater(u, acts, act, p, req); }
    forall x | Granted(u, acts, p, x) ensures Granted(u, acts + [act], p, x) { GrantedLater(u, acts, act, p, x); }
  }

  lemma CloserLater(u: Upsert, acts: seq<Act>, act: Act, p: nat, c: Closer)
    requires CloserGranted(u, acts, p, c)
    ensures CloserGranted(u, acts + [act], p, c)
  {
    hide Permitted;
    forall rk, seen, plan | Permitted(u, acts, p, rk, seen, plan)
      ensures Permitted(u, acts + [act], p, rk, seen, plan)
    {
      PermittedLater(u, acts, act, p, rk, seen, plan);
    }
  }

  lemma ProcLater(u: Upsert, acts: seq<Act>, act: Act, p: nat, q: Proc)
    requires ProcGranted(u, acts, p, q)
    ensures ProcGranted(u, acts + [act], p, q)
  {
    hide Granted, PublisherGranted, CloserGranted;
    forall x | Granted(u, acts, p, x) ensures Granted(u, acts + [act], p, x) { GrantedLater(u, acts, act, p, x); }
    match q
    case Publishing(pub) => PublisherLater(u, acts, act, p, pub);
    case Closing(c) => CloserLater(u, acts, act, p, c);
    case ClosingFirst(_, _, c) => CloserLater(u, acts, act, p, c);
    case _ =>
  }

  lemma PublisherStepGranted(u: Upsert, acts: seq<Act>, p: nat, q: Publisher, a: Answer)
    requires p in Exec(u, acts).procs && Exec(u, acts).procs[p] == Publishing(q) && PublisherGranted(u, acts, p, q)
    ensures PublisherGranted(u, acts + [Go(p, a)], p, PublishStep(Exec(u, acts).world, q, a).1)
  {
    var more, w := acts + [Go(p, a)], Exec(u, acts).world;
    PublisherLater(u, acts, Go(p, a), p, q);
    if a.ok { GrantedNow(u, acts, p, a, Publishing(q)); }
    hide Granted, Exec;
    if q.Confirming? && a.ok { BecomesAtHome(u, more, p, q.req, q.all); }
    hide AtHome;
    if q.Registering? || q.Selecting? || q.Feeding? || q.Confirming? { BeforeHead(u, more, p, w, q, a); }
    else { AfterHead(u, more, p, w, q, a); }
  }

  lemma BecomesAtHome(u: Upsert, acts: seq<Act>, p: nat, req: Request, all: map<RowKey, Row>)
    requires PublisherGranted(u, acts, p, Confirming(req, all)) && Granted(u, acts, p, Publishing(Confirming(req, all)))
    ensures AtHome(u, acts, p, req)
  {
    hide Granted;
  }

  /** The steps up to the read of the head, and those from it on, once their own grant is noted. */
  lemma BeforeHead(u: Upsert, acts: seq<Act>, p: nat, w: World, q: Publisher, a: Answer)
    requires q.Registering? || q.Selecting? || q.Feeding? || q.Confirming?
    requires PublisherGranted(u, acts, p, q) && (a.ok ==> Granted(u, acts, p, Publishing(q)))
    requires q.Confirming? && a.ok ==> AtHome(u, acts, p, q.req)
    ensures
      var q' := PublishStep(w, q, a).1;
      PublisherGranted(u, acts, p, q') || (q.Confirming? && q'.Published?)
    ensures q.Confirming? && PublishStep(w, q, a).1.Published? ==> a.ok
  {
    hide Granted, AtHome, Refuses, ReadLegacy;
  }

  lemma AfterHead(u: Upsert, acts: seq<Act>, p: nat, w: World, q: Publisher, a: Answer)
    requires !(q.Registering? || q.Selecting? || q.Feeding? || q.Confirming?)
    requires PublisherGranted(u, acts, p, q) && (a.ok ==> Granted(u, acts, p, Publishing(q)))
    ensures PublisherGranted(u, acts, p, PublishStep(w, q, a).1)
  {
    hide Granted, AtHome, ReadLegacy, Predecessor, InsertRow, StoreBytes;
  }

  lemma CloserStepGranted(u: Upsert, acts: seq<Act>, p: nat, q: Proc, c: Closer, a: Answer)
    requires p in Exec(u, acts).procs && Exec(u, acts).procs[p] == q && CloserIn(q) == Some(c)
    requires CloserGranted(u, acts, p, c)
    ensures CloserGranted(u, acts + [Go(p, a)], p, CloseStep(u, Exec(u, acts).world, c, a).1)
  {
    CloserLater(u, acts, Go(p, a), p, c);
    if a.ok { GrantedNow(u, acts, p, a, q); }
    hide Granted, Exec, ReadLegacy, Examine;
    if c.Permitting? && a.ok { assert Permitted(u, acts + [Go(p, a)], p, c.row, c.seen, c.plan); }
    var c' := CloseStep(u, Exec(u, acts).world, c, a).1;
    if c'.Recording? && (c.Permitting? || c.Verifying?) {
      assert Permitted(u, acts + [Go(p, a)], p, c'.row, c'.seen, c.plan)
        && c'.receipt == ReceiptFor(c.plan, c'.receipt.closedETag, c'.receipt.observedAt);
    }
  }

  lemma StepGranted(u: Upsert, acts: seq<Act>, p: nat, q: Proc, a: Answer)
    requires Inv(Exec(u, acts)) && p in Exec(u, acts).procs && Exec(u, acts).procs[p] == q && ProcGranted(u, acts, p, q)
    ensures ProcGranted(u, acts + [Go(p, a)], p, ProcStep(u, Exec(u, acts).world, q, a).1)
  {
    var w := Exec(u, acts).world;
    ProcLater(u, acts, Go(p, a), p, q);
    if a.ok { GrantedNow(u, acts, p, a, q); }
    match q
    case Publishing(pub) => PublisherStepGranted(u, acts, p, pub, a);
    case Closing(c) => CloserStepGranted(u, acts, p, q, c, a);
    case ClosingFirst(_, _, c) =>
      if !c.Closed? && !c.Failed? { CloserStepGranted(u, acts, p, q, c, a); }
    case Finding(rk, _) => if rk in w.db { assert RowOk(w, rk); }
    case _ =>
  }

  /** In every run every process has been granted what it needs for what it is about to do. */
  lemma {:induction false} EverythingIsGranted(u: Upsert, acts: seq<Act>)
    ensures forall p :: p in Exec(u, acts).procs ==> ProcGranted(u, acts, p, Exec(u, acts).procs[p])
  {
    if acts != [] {
      var before, act := acts[..|acts| - 1], acts[|acts| - 1];
      assert acts == before + [act];
      EverythingIsGranted(u, before);
      Reachable(u, before);
      var s, s' := Exec(u, before), Exec(u, acts);
      forall p | p in s'.procs ensures ProcGranted(u, acts, p, s'.procs[p]) {
        if act.Go? && act.p == p {
          StepGranted(u, before, p, s.procs[p], act.answer);
        } else if p in s.procs && s'.procs[p] == s.procs[p] {
          ProcLater(u, before, act, p, s.procs[p]);
        }
      }
    }
  }

  // ---- Results ------------------------------------------------------------------------------------

  /** Home is first: whenever a publication writes the legacy record or a row, the card had been published at home
      and found there by the same publication, and before a write of the record it was found there once more. */
  lemma MirrorFollowsHome(u: Upsert, acts: seq<Act>, p: nat, a: Answer, q: Publisher)
    requires p in Exec(u, acts).procs && Exec(u, acts).procs[p] == Publishing(q)
    requires PublishStep(Exec(u, acts).world, q, a).0 != Exec(u, acts).world
    ensures
      && (q.Putting? || q.Inserting?) && AtHome(u, acts, p, q.req)
      && (q.Putting? ==> Granted(u, acts, p, Publishing(Rechecking(q.req, q.head))))
      && (PublishStep(Exec(u, acts).world, q, a).0.history != Exec(u, acts).world.history ==> q.Putting?)
  {
    EverythingIsGranted(u, acts);
    hide Exec, AtHome, Granted, Refuses, ReadLegacy;
  }

  /** Whenever a close puts a record or stores a receipt, it had been told that the card is current and no newer
      response is there, for the very plan that it carries out. */
  lemma ClosesOnlyWhenPermitted(u: Upsert, acts: seq<Act>, p: nat, a: Answer, c: Closer)
    requires p in Exec(u, acts).procs && CloserIn(Exec(u, acts).procs[p]) == Some(c)
    requires CloseStep(u, Exec(u, acts).world, c, a).0 != Exec(u, acts).world
    ensures
      || (c.Patching? && Permitted(u, acts, p, c.row, c.seen, c.plan))
      || (c.Recording? && exists plan ::
            Permitted(u, acts, p, c.row, c.seen, plan)
            && c.receipt == ReceiptFor(plan, c.receipt.closedETag, c.receipt.observedAt))
  {
    EverythingIsGranted(u, acts);
    assert ProcGranted(u, acts, p, Exec(u, acts).procs[p]);
    hide Exec, Permitted, ReadLegacy, Examine;
  }

  /** Whenever something is delivered, the response had been found deliverable for its row, and the card was found
      current once more right before. */
  lemma DeliversOnlyCurrent(u: Upsert, acts: seq<Act>, p: nat, a: Answer)
    requires p in Exec(u, acts).procs
    requires Next(u, Exec(u, acts), Go(p, a)).world.deliveries != Exec(u, acts).world.deliveries
    ensures
      var q := Exec(u, acts).procs[p];
      && q.Delivering? && Granted(u, acts, p, Finding(RowOf(q.binding), q.response))
      && Granted(u, acts, p, CardChecking(q.binding, q.response, q.receipt))
  {
    EverythingIsGranted(u, acts);
    OnlyDeliveringDelivers(u, Exec(u, acts).world, Exec(u, acts).procs[p], a);
  }
}
