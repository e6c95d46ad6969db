/** The limiters in series before the paid chat handlers (backend/src/rate-limits.ts): each request is
    charged to its own key, then, with a verified session, to one aggregate key; at the root when the
    classifier recognises the path, otherwise at the handler.

    A limiter is a fixed-window counter: it increments its key and denies above the limit. Any key's window
    may end between any two steps, and any requests interleave. */
module PaidChat {
  import opened Optional

  type Address = string
  type RequestId = nat

  const SESSION_LIMIT := 120
  const PAID_CHAT_LIMIT := 600

  datatype Key = Session(address: Address) | Anonymous | Aggregate

  function Limit(k: Key): nat {
    match k case Session(_) => SESSION_LIMIT case Anonymous => PAID_CHAT_LIMIT case Aggregate => PAID_CHAT_LIMIT
  }

  /** Where a request is; `atHandler` is whether the limiter was entered at the route handler. */
  datatype Stage =
    | Arrived
    | ChargingOwn(atHandler: bool)
    | ChargingAggregate(atHandler: bool)
    | Routed
    | Handled       // reached a paid chat handler's model call
    | Elsewhere     // reached another route
    | OverOwn       // 429 from its own key
    | OverAggregate // 429 from the aggregate

  /** The window of its key in which a request was charged, and the verdict. */
  datatype Charge = Charge(window: nat, passed: bool)

  /** `recognised` is the root classifier's answer, `paid` whether Express routes the request to a paid
      handler; `charged` is membership in the set of charged requests. The others remember its charges: how
      many there were, and the last one to either key. */
  datatype Request = Request(
    address: Option<Address>, recognised: bool, paid: bool, stage: Stage, charged: bool,
    ownCharges: nat, aggregateCharges: nat, own: Option<Charge>, aggregate: Option<Charge>)

  /** The hits of every key in its current window, and how many windows of it have ended. */
  datatype State = State(requests: map<RequestId, Request>, hits: map<Key, nat>, ended: map<Key, nat>)

  datatype Act =
    | Arrive(id: RequestId, address: Option<Address>, recognised: bool, paid: bool)
    | Step(id: RequestId)
    | EndWindow(key: Key)

  const START: State := State(map[], map[], map[])

  function Count(m: map<Key, nat>, k: Key): nat { if k in m then m[k] else 0 }

  function OwnKey(r: Request): Key { match r.address case Some(a) => Session(a) case None => Anonymous }

  /** One increment of a key's counter and its verdict. */
  function Hit(s: State, k: Key): (State, bool) {
    var n := Count(s.hits, k) + 1;
    (s.(hits := s.hits[k := n]), n <= Limit(k))
  }

  /** A charge to the request's own key. */
  function ChargeOwn(s: State, id: RequestId, atHandler: bool): State
    requires id in s.requests
  {
    var r := s.requests[id];
    var (t, ok) := Hit(s, OwnKey(r));
    t.(requests := t.requests[id := r.(ownCharges := r.ownCharges + 1,
      own := Some(Charge(Count(s.ended, OwnKey(r)), ok)),
                                       stage := if ok then ChargingAggregate(atHandler) else OverOwn)])
  }

  /** A charge to the aggregate key. */
  function ChargeAggregate(s: State, id: RequestId, atHandler: bool): State
    requires id in s.requests
  {
    var r := s.requests[id];
    var (t, ok) := Hit(s, Aggregate);
    t.(requests := t.requests[id := r.(aggregateCharges := r.aggregateCharges + 1,
      aggregate := Some(Charge(Count(s.ended, Aggregate), ok)),
                                       stage := if ok then After(atHandler) else OverAggregate)])
  }

  function After(atHandler: bool): Stage { if atHandler then Handled else Routed }

  function StepRequest(s: State, id: RequestId): State
    requires id in s.requests
  {
    var r := s.requests[id];
    match r.stage
    case Arrived =>
      s.(requests := s.requests[id := if r.recognised then r.(stage := ChargingOwn(false), charged := true)
        else r.(stage := Routed)])
    case ChargingOwn(h) => ChargeOwn(s, id, h)
    case ChargingAggregate(h) =>
      if r.address.None? then s.(requests := s.requests[id := r.(stage := After(h))]) else ChargeAggregate(s, id, h)
    case Routed =>
      s.(requests := s.requests[id :=
        if !r.paid then r.(stage := Elsewhere)
        else if r.charged then r.(stage := Handled)
        else r.(stage := ChargingOwn(true), charged := true)])
    case _ => s
  }

  function Next(s: State, a: Act): State {
    match a
    case Arrive(id, address, recognised, paid) =>
      if id in s.requests then s
      else s.(requests := s.requests[id := Request(address, recognised, paid, Arrived, false, 0, 0, None, None)])
    case Step(id) => if id in s.requests then StepRequest(s, id) else s
    case EndWindow(k) => s.(hits := s.hits[k := 0], ended := s.ended[k := Count(s.ended, k) + 1])
  }

  function Exec(acts: seq<Act>): State {
    if acts == [] then START else Next(Exec(acts[..|acts| - 1]), acts[|acts| - 1])
  }

  // ---- The invariant ------------------------------------------------------------------------------

  function Min(a: nat, b: nat): nat { if a < b then a else b }

  /** The charge of a request to a key. */
  function ChargeTo(r: Request, k: Key): Option<Charge> {
    if k == Aggregate then r.aggregate else if k == OwnKey(r) then r.own else None
  }

  predicate ChargedIn(r: Request, k: Key, window: nat) { ChargeTo(r, k).Some? && ChargeTo(r, k).value.window == window }

  predicate PassedIn(r: Request, k: Key, window: nat) { ChargedIn(r, k, window) && ChargeTo(r, k).value.passed }

  /** The requests charged to a key in its n-th window, and those of them that its limiter let pass. */
  function Charged(s: State, k: Key, window: nat): set<RequestId> {
    set id | id in s.requests && ChargedIn(s.requests[id], k, window)
  }

  function Passed(s: State, k: Key, window: nat): set<RequestId> {
    set id | id in s.requests && PassedIn(s.requests[id], k, window)
  }

  /** In every window of a key, the requests let pass are as many as were charged, up to the limit. */
  ghost predicate WindowOk(s: State, k: Key, window: nat) {
    && |Passed(s, k, window)| == Min(|Charged(s, k, window)|, Limit(k))
    && (window == Count(s.ended, k) ==> |Charged(s, k, window)| == Count(s.hits, k))
    && (window > Count(s.ended, k) ==> Charged(s, k, window) == {})
  }

  ghost predicate WindowsOk(s: State) { forall k, window :: WindowOk(s, k, window) }

  function One(b: bool): nat { if b then 1 else 0 }

  /** The charges a request has had, by stage. */
  ghost predicate RequestOk(r: Request) {
    && (r.own.Some? <==> r.ownCharges > 0) && (r.aggregate.Some? <==> r.aggregateCharges > 0)
    && StageOk(r) && PassesOk(r)
  }

  /** A request goes on exactly when it passes; only one that has passed its own key is charged to the
      aggregate, and only with a session. */
  ghost predicate PassesOk(r: Request) {
    && (r.own.Some? ==> (r.own.value.passed <==> !r.stage.OverOwn?))
    && (r.aggregate.Some? ==> r.own.Some? && r.address.Some? && (r.aggregate.value.passed <==> !r.stage.OverAggregate?))
  }

  ghost predicate StageOk(r: Request) {
    var session := r.address.Some?;
    match r.stage
    case Arrived => !r.charged && r.ownCharges == 0 && r.aggregateCharges == 0
    case ChargingOwn(h) =>
      r.charged && (h ==> r.paid) && h != r.recognised && r.ownCharges == 0 && r.aggregateCharges == 0
    case ChargingAggregate(h) =>
      r.charged && (h ==> r.paid) && h != r.recognised && r.ownCharges == 1 && r.aggregateCharges == 0
    case Routed =>
      r.charged == r.recognised && r.ownCharges == One(r.recognised)
      && r.aggregateCharges == One(r.recognised && session)
    case Handled => r.charged && r.paid && r.ownCharges == 1 && r.aggregateCharges == One(session)
    case Elsewhere => !r.paid && r.ownCharges == One(r.recognised) && r.aggregateCharges == One(r.recognised && session)
    case OverOwn => r.ownCharges == 1 && r.aggregateCharges == 0
    case OverAggregate => session && r.ownCharges == 1 && r.aggregateCharges == 1
  }

  ghost predicate Inv(s: State) { WindowsOk(s) && forall id :: id in s.requests ==> RequestOk(s.requests[id]) }

  /** The charges to every key stay as they were. */
  ghost predicate SameCharges(s: State, t: State) {
    t.hits == s.hits && t.ended == s.ended
      && forall k, window ::
      Charged(t, k, window) == Charged(s, k, window) && Passed(t, k, window) == Passed(s, k, window)
  }

  lemma SameChargesKeep(s: State, t: State)
    requires WindowsOk(s) && SameCharges(s, t)
    ensures WindowsOk(t)
  {
    forall k, window ensures WindowOk(t, k, window) { assert WindowOk(s, k, window); }
  }

  /** One request is charged to one key in its current window. */
  ghost predicate OneCharge(s: State, t: State, k: Key, id: RequestId) {
    && t.hits == s.hits[k := Count(s.hits, k) + 1] && t.ended == s.ended
    && id !in Charged(s, k, Count(s.ended, k)) && id !in Passed(s, k, Count(s.ended, k))
    && forall q, window :: OneChargeAt(s, t, k, id, q, window)
  }

  ghost predicate OneChargeAt(s: State, t: State, k: Key, id: RequestId, q: Key, window: nat) {
    var here := q == k && window == Count(s.ended, k);
    && Charged(t, q, window) == Charged(s, q, window) + (if here then {id} else {})
    && Passed(t, q, window) == Passed(s, q, window) + (if here && Count(s.hits, k) < Limit(k) then {id} else {})
  }

  lemma WindowAfterCharge(s: State, t: State, k: Key, id: RequestId, q: Key, window: nat)
    requires WindowOk(s, q, window) && OneChargeAt(s, t, k, id, q, window)
    requires t.hits == s.hits[k := Count(s.hits, k) + 1] && t.ended == s.ended
    requires id !in Charged(s, k, Count(s.ended, k)) && id !in Passed(s, k, Count(s.ended, k))
    ensures WindowOk(t, q, window)
  {
    hide Charged, Passed, Limit;
    if q == k && window == Count(s.ended, k) {
      OneMore(Charged(s, q, window), id);
      OneMore(Passed(s, q, window), id);
    } else {
      NoMore(Charged(s, q, window));
      NoMore(Passed(s, q, window));
    }
  }

  lemma OneMore(ids: set<RequestId>, id: RequestId)
    ensures id !in ids ==> |ids + {id}| == |ids| + 1
  {
  }

  lemma NoMore(ids: set<RequestId>)
    ensures ids + {} == ids
  {
  }

  lemma OneChargeKeeps(s: State, t: State, k: Key, id: RequestId)
    requires WindowsOk(s) && OneCharge(s, t, k, id)
    ensures WindowsOk(t)
  {
    hide WindowOk, OneChargeAt;
    forall q, window ensures WindowOk(t, q, window) {
      assert WindowOk(s, q, window) && OneChargeAt(s, t, k, id, q, window);
      WindowAfterCharge(s, t, k, id, q, window);
    }
  }

  lemma ChargeOwnIsOne(s: State, id: RequestId, h: bool)
    requires id in s.requests && s.requests[id].own.None?
    ensures OneCharge(s, ChargeOwn(s, id, h), OwnKey(s.requests[id]), id)
  {
    hide Limit;
  }

  lemma ChargeAggregateIsOne(s: State, id: RequestId, h: bool)
    requires id in s.requests && s.requests[id].aggregate.None?
    ensures OneCharge(s, ChargeAggregate(s, id, h), Aggregate, id)
  {
    hide Limit;
  }

  lemma StepKeepsWindows(s: State, id: RequestId)
    requires Inv(s) && id in s.requests
    ensures WindowsOk(StepRequest(s, id))
  {
    var r := s.requests[id];
    assert RequestOk(r);
    hide WindowsOk, OneCharge, ChargeOwn, ChargeAggregate, SameCharges;
    match r.stage {
      case ChargingOwn(h) =>
        ChargeOwnIsOne(s, id, h);
        OneChargeKeeps(s, ChargeOwn(s, id, h), OwnKey(r), id);
      case ChargingAggregate(h) =>
        if r.address.None? {
          QuietStep(s, id);
        } else {
          ChargeAggregateIsOne(s, id, h);
          OneChargeKeeps(s, ChargeAggregate(s, id, h), Aggregate, id);
        }
      case _ => QuietStep(s, id);
    }
  }

  lemma QuietStep(s: State, id: RequestId)
    requires WindowsOk(s) && id in s.requests && !s.requests[id].stage.ChargingOwn?
    requires s.requests[id].stage.ChargingAggregate? ==> s.requests[id].address.None?
    ensures WindowsOk(StepRequest(s, id))
  {
    hide WindowsOk;
    QuietIsSame(s, id);
    SameChargesKeep(s, StepRequest(s, id));
  }

  lemma QuietIsSame(s: State, id: RequestId)
    requires id in s.requests && !s.requests[id].stage.ChargingOwn?
    requires s.requests[id].stage.ChargingAggregate? ==> s.requests[id].address.None?
    ensures SameCharges(s, StepRequest(s, id))
  {
    hide ChargeOwn, ChargeAggregate;
    var t := StepRequest(s, id);
    RestagedCharges(s, t, id);
  }

  /** A step that changes at most the stage of one request and its membership in the charged set. */
  lemma RestagedCharges(s: State, t: State, id: RequestId)
    requires id in s.requests && id in t.requests && t.hits == s.hits && t.ended == s.ended
    requires t.requests == s.requests[id := s.requests[id].(stage := t.requests[id].stage,
        charged := t.requests[id].charged)]
    ensures SameCharges(s, t)
  {
  }

  lemma StepKeepsRequests(s: State, id: RequestId)
    requires (forall x :: x in s.requests ==> RequestOk(s.requests[x])) && id in s.requests
    ensures forall x :: x in StepRequest(s, id).requests ==> RequestOk(StepRequest(s, id).requests[x])
  {
    hide RequestOk, StepRequest;
    StepKeepsRequest(s, id);
    StepKeepsOthers(s, id);
  }

  lemma StepKeepsRequest(s: State, id: RequestId)
    requires id in s.requests && RequestOk(s.requests[id])
    ensures id in StepRequest(s, id).requests && RequestOk(StepRequest(s, id).requests[id])
  {
    hide ChargeOwn, ChargeAggregate;
    match s.requests[id].stage {
      case ChargingOwn(h) => ChargeOwnKeepsRequest(s, id, h);
      case ChargingAggregate(h) => if s.requests[id].address.Some? { ChargeAggregateKeepsRequest(s, id, h); }
      case _ =>
    }
  }

  lemma ChargeOwnKeepsRequest(s: State, id: RequestId, h: bool)
    requires id in s.requests && RequestOk(s.requests[id]) && s.requests[id].stage == ChargingOwn(h)
    ensures id in ChargeOwn(s, id, h).requests && RequestOk(ChargeOwn(s, id, h).requests[id])
  {
    hide Limit, Count;
  }

  lemma ChargeAggregateKeepsRequest(s: State, id: RequestId, h: bool)
    requires id in s.requests && RequestOk(s.requests[id]) && s.requests[id].stage == ChargingAggregate(h)
      && s.requests[id].address.Some?
    ensures id in ChargeAggregate(s, id, h).requests && RequestOk(ChargeAggregate(s, id, h).requests[id])
  {
    hide Limit, Count;
  }

  lemma StepKeepsOthers(s: State, id: RequestId)
    requires id in s.requests
    ensures forall x ::
        x in StepRequest(s, id).requests && x != id ==>
        x in s.requests && StepRequest(s, id).requests[x] == s.requests[x]
  {
    hide Limit, Count;
  }

  lemma StepKeeps(s: State, id: RequestId)
    requires Inv(s) && id in s.requests
    ensures Inv(StepRequest(s, id))
  {
    hide StepRequest;
    StepKeepsWindows(s, id);
    StepKeepsRequests(s, id);
  }

  lemma EndWindowKeeps(s: State, k: Key)
    requires WindowsOk(s)
    ensures WindowsOk(Next(s, EndWindow(k)))
  {
    var t := Next(s, EndWindow(k));
    forall q, window ensures WindowOk(t, q, window) {
      assert WindowOk(s, q, window);
      assert Charged(t, q, window) == Charged(s, q, window) && Passed(t, q, window) == Passed(s, q, window);
    }
  }

  lemma ArriveKeeps(s: State, a: Act)
    requires Inv(s) && a.Arrive?
    ensures Inv(Next(s, a))
  {
    hide WindowsOk;
    if a.id !in s.requests {
      assert SameCharges(s, Next(s, a));
      SameChargesKeep(s, Next(s, a));
    }
  }

  lemma NextKeeps(s: State, a: Act)
    requires Inv(s)
    ensures Inv(Next(s, a))
  {
    hide StepRequest, WindowsOk, RequestOk;
    match a {
      case Step(id) => if id in s.requests { StepKeeps(s, id); }
      case EndWindow(k) => EndWindowKeeps(s, k);
      case Arrive(_, _, _, _) => ArriveKeeps(s, a);
    }
  }

  lemma InitIsOk()
    ensures Inv(START)
  {
  }

  lemma {:induction false} Reachable(acts: seq<Act>)
    ensures Inv(Exec(acts))
  {
    if acts == [] {
      InitIsOk();
    } else {
      Reachable(acts[..|acts| - 1]);
      hide Inv;
      NextKeeps(Exec(acts[..|acts| - 1]), acts[|acts| - 1]);
    }
  }

  // ---- Results ------------------------------------------------------------------------------------

  /** A request that reaches a paid handler was charged to its own key exactly once, whichever spelling of
      the path it used, and to the aggregate exactly once if it has a session, else never. */
  lemma PaidRequestsAreChargedOnce(acts: seq<Act>, id: RequestId)
    requires id in Exec(acts).requests && Exec(acts).requests[id].stage == Handled
    ensures var r := Exec(acts).requests[id];
        r.ownCharges == 1 && r.aggregateCharges == if r.address.Some? then 1 else 0
  {
    Reachable(acts);
  }

  /** In every window of the aggregate, past or current, the requests that passed it all have a session and
      were let pass by their own limiter before; they are at most 600, and fewer only if no more were charged
      to it. */
  lemma AggregateAdmits(acts: seq<Act>, window: nat)
    ensures var s := Exec(acts);
            && |Passed(s, Aggregate, window)| == Min(|Charged(s, Aggregate, window)|, 600)
            && forall id :: id in Charged(s, Aggregate, window) ==>
                 var r := s.requests[id]; r.address.Some? && r.own.Some? && r.own.value.passed
  {
    Reachable(acts);
    hide Exec;
    assert WindowOk(Exec(acts), Aggregate, window);
    hide WindowsOk, WindowOk;
    forall id | id in Charged(Exec(acts), Aggregate, window)
      ensures var r := Exec(acts).requests[id]; r.address.Some? && r.own.Some? && r.own.value.passed
    {
      assert RequestOk(Exec(acts).requests[id]);
    }
  }

  /** In every window of a session's own key, past or current, at most 120 of its requests pass, and fewer
      only if no more were charged to it. */
  lemma SessionAdmits(acts: seq<Act>, address: Address, window: nat)
    ensures var s := Exec(acts);
            && |Passed(s, Session(address), window)| == Min(|Charged(s, Session(address), window)|, 120)
            && forall id :: id in Charged(s, Session(address), window) ==> s.requests[id].address == Some(address)
  {
    Reachable(acts);
    assert WindowOk(Exec(acts), Session(address), window);
  }

  /** In its current window, which its counter counts, a key lets exactly as many requests pass as the counter
      has hits, up to its limit: 120 for a session and 600 for all sessions together. */
  lemma WindowsAdmitExactlyTheLimit(acts: seq<Act>, address: Address)
    ensures var s := Exec(acts);
            && |Passed(s, Session(address), Count(s.ended, Session(address)))|
              == Min(Count(s.hits, Session(address)), 120)
            && |Passed(s, Aggregate, Count(s.ended, Aggregate))| == Min(Count(s.hits, Aggregate), 600)
  {
    Reachable(acts);
    assert WindowOk(Exec(acts), Session(address), Count(Exec(acts).ended, Session(address)));
    assert WindowOk(Exec(acts), Aggregate, Count(Exec(acts).ended, Aggregate));
  }

  /** A handled request passed the limiter of its own key, and, with a session, that of the aggregate. */
  lemma HandledHavePassed(acts: seq<Act>, id: RequestId)
    requires id in Exec(acts).requests && Exec(acts).requests[id].stage == Handled
    ensures var s := Exec(acts);
            var r := s.requests[id];
            && r.own.Some? && id in Passed(s, OwnKey(r), r.own.value.window)
            && (r.address.Some? ==> r.aggregate.Some? && id in Passed(s, Aggregate, r.aggregate.value.window))
  {
    Reachable(acts);
  }

  /** A request without a session, or denied by its own key, never spends the aggregate. */
  lemma DeniedAndAnonymousSpendNothing(acts: seq<Act>, id: RequestId)
    requires id in Exec(acts).requests
    requires Exec(acts).requests[id].address.None? || Exec(acts).requests[id].stage == OverOwn
    ensures Exec(acts).requests[id].aggregateCharges == 0
  {
    Reachable(acts);
  }

  /** The aggregate's counter rises only for a request with a session that its own key has let pass. */
  lemma AggregateIsSpentAfterOwnKey(acts: seq<Act>, a: Act)
    ensures var s, t := Exec(acts), Next(Exec(acts), a);
            Count(t.hits, Aggregate) > Count(s.hits, Aggregate) ==>
              && a.Step? && a.id in s.requests && s.requests[a.id].address.Some?
              && s.requests[a.id].ownCharges == 1 && s.requests[a.id].aggregateCharges == 0
              && t.requests[a.id].aggregateCharges == 1 && t.requests[a.id].stage != OverOwn
  {
    Reachable(acts);
  }

  // ---- One request on its own -----------------------------------------------------------------------

  /** The request arrives and makes its steps with nothing in between. */
  function Served(s: State, id: RequestId, address: Option<Address>, recognised: bool, paid: bool, steps: nat): State {
    if steps == 0 then Next(s, Arrive(id, address, recognised, paid))
    else Next(Served(s, id, address, recognised, paid, steps - 1), Step(id))
  }

  /** What a request meets: how many hits its own key and the aggregate have in their windows, and its own
      key's limit. */
  datatype Met = Met(own: nat, limit: nat, aggregate: nat)

  ghost predicate Meets(s: State, address: Option<Address>, m: Met) {
    && m.own == Count(s.hits, KeyOf(address))
    && m.aggregate == Count(s.hits, Aggregate) && m.limit == if address.Some? then 120 else 600
  }

  /** Where a request ends: one that is neither recognised at the root nor routed to a paid handler passes no
      limiter; every other one is denied when its own key has no hit left, then, with a session, when the
      aggregate has none left, and otherwise reaches its route. */
  function Destination(m: Met, session: bool, recognised: bool, paid: bool): Stage {
    if !recognised && !paid then Elsewhere
    else if m.own >= m.limit then OverOwn
    else if session && m.aggregate >= 600 then OverAggregate
    else if paid then Handled
    else Elsewhere
  }

  /** A limited request costs its own key one hit, and the aggregate one exactly when it has a session and its own
      key let it pass, denied or not; the counters of all other keys, and all windows, stay. */
  ghost predicate Spent(s: State, t: State, own: Key, m: Met, session: bool, limited: bool) {
    && t.ended == s.ended
    && (forall k :: k != own && k != Aggregate ==> Count(t.hits, k) == Count(s.hits, k))
    && Count(t.hits, own) == m.own + (if limited then 1 else 0)
    && Count(t.hits, Aggregate) == m.aggregate + (if limited && session && m.own < m.limit then 1 else 0)
  }

  /** At most the stage, the charges and the membership in the charged set of one request differ. */
  ghost predicate SameRest(s: State, t: State, id: RequestId) {
    && id in s.requests && id in t.requests && t.requests == s.requests[id := t.requests[id]] && t.ended == s.ended
    && t.requests[id].address == s.requests[id].address && t.requests[id].paid == s.requests[id].paid
    && t.requests[id].recognised == s.requests[id].recognised
  }

  function KeyOf(address: Option<Address>): Key { if address.Some? then Session(address.value) else Anonymous }

  lemma OwnLimiter(s: State, id: RequestId, atHandler: bool, m: Met)
    requires id in s.requests && s.requests[id].stage == ChargingOwn(atHandler)
      && Meets(s, s.requests[id].address, m)
    ensures var r, t := s.requests[id], StepRequest(s, id);
            && SameRest(s, t, id) && t.requests[id].charged == r.charged
            && t.requests[id].stage == (if m.own >= m.limit then OverOwn else ChargingAggregate(atHandler))
            && t.hits == s.hits[KeyOf(r.address) := m.own + 1]
  {
    assert StepRequest(s, id) == ChargeOwn(s, id, atHandler);
  }

  lemma AggregateLimiter(s: State, id: RequestId, atHandler: bool)
    requires id in s.requests && s.requests[id].stage == ChargingAggregate(atHandler)
    ensures var r, t := s.requests[id], StepRequest(s, id);
            && SameRest(s, t, id) && t.requests[id].charged == r.charged
            && t.requests[id].stage == (if r.address.Some? && Count(s.hits, Aggregate) >= 600 then OverAggregate
                                        else if atHandler then Handled else Routed)
            && t.hits == (if r.address.Some? then s.hits[Aggregate := Count(s.hits, Aggregate) + 1] else s.hits)
  {
    if s.requests[id].address.Some? { assert StepRequest(s, id) == ChargeAggregate(s, id, atHandler); }
  }

  /** Both limiters in series: the request's own key, then the aggregate. */
  lemma BothLimiters(s: State, id: RequestId, atHandler: bool, m: Met)
    requires id in s.requests && s.requests[id].stage == ChargingOwn(atHandler)
      && Meets(s, s.requests[id].address, m)
    ensures id in StepRequest(s, id).requests
    ensures var r, t := s.requests[id], StepRequest(StepRequest(s, id), id);
            && SameRest(s, t, id) && t.requests[id].charged == r.charged
            && t.requests[id].stage == (if m.own >= m.limit then OverOwn
                                        else if r.address.Some? && m.aggregate >= 600 then OverAggregate
                                        else if atHandler then Handled else Routed)
            && Spent(s, t, KeyOf(r.address), m, r.address.Some?, true)
  {
    OwnLimiter(s, id, atHandler, m);
    var mid := StepRequest(s, id);
    if m.own < m.limit { AggregateLimiter(mid, id, atHandler); } else { LastStep(mid, id); }
    hide StepRequest, Limit;
  }

  /** A request that the limiters let through to its route, or that has ended, makes its last step. */
  lemma LastStep(s: State, id: RequestId)
    requires id in s.requests && s.requests[id].stage in {Routed, Handled, Elsewhere, OverOwn, OverAggregate}
    requires s.requests[id].stage == Routed && s.requests[id].paid ==> s.requests[id].charged
    ensures var r := s.requests[id];
            StepRequest(s, id) == s.(requests := s.requests[id := r.(stage :=
              if r.stage != Routed then r.stage else if r.paid then Handled else Elsewhere)])
  {
    assert s.requests[id := s.requests[id]] == s.requests;
  }

  lemma ArrivedStep(s: State, id: RequestId)
    requires id in s.requests && s.requests[id].stage == Arrived && !s.requests[id].charged
    ensures var r, t := s.requests[id], StepRequest(s, id);
            && SameRest(s, t, id) && t.hits == s.hits && t.requests[id].charged == r.recognised
            && t.requests[id].stage == if r.recognised then ChargingOwn(false) else Routed
  {}

  lemma RoutedStep(s: State, id: RequestId)
    requires id in s.requests && s.requests[id].stage == Routed && !s.requests[id].charged
    ensures var r, t := s.requests[id], StepRequest(s, id);
            && SameRest(s, t, id) && t.hits == s.hits && t.requests[id].charged == r.paid
            && t.requests[id].stage == if r.paid then ChargingOwn(true) else Elsewhere
  {}

  /** Where a request that has arrived ends: four steps on, and for good. */
  ghost predicate Ends(s: State, t: State, id: RequestId, m: Met) {
    && SameRest(s, t, id)
    && var r := s.requests[id];
    && t.requests[id].stage == Destination(m, r.address.Some?, r.recognised, r.paid)
    && Spent(s, t, KeyOf(r.address), m, r.address.Some?, r.recognised || r.paid)
  }

  lemma ArrivedEnds(s: State, id: RequestId, m: Met)
    requires id in s.requests && s.requests[id].stage == Arrived && !s.requests[id].charged
      && Meets(s, s.requests[id].address, m)
    ensures var a := StepRequest(s, id);
            && id in a.requests && id in StepRequest(a, id).requests
            && id in StepRequest(StepRequest(a, id), id).requests
            && var t := StepRequest(StepRequest(StepRequest(a, id), id), id);
            && Ends(s, t, id, m) && StepRequest(t, id) == t
  {
    hide StepRequest, Limit;
    var a := StepRequest(s, id);
    ArrivedStep(s, id);
    var r := s.requests[id];
    if r.recognised {
      BothLimiters(a, id, false, m);
      var c := StepRequest(StepRequest(a, id), id);
      LastStep(c, id);
      LastStep(StepRequest(c, id), id);
    } else {
      RoutedStep(a, id);
      var b := StepRequest(a, id);
      if r.paid {
        BothLimiters(b, id, true, m);
        LastStep(StepRequest(StepRequest(b, id), id), id);
      } else {
        LastStep(b, id);
        LastStep(StepRequest(b, id), id);
        LastStep(StepRequest(StepRequest(b, id), id), id);
      }
    }
  }

  /** A request served on its own ends after four steps where the limits say, at the cost they say, and goes no
      further; no other request is touched. */
  lemma ServedAlone(s: State, id: RequestId, address: Option<Address>, recognised: bool, paid: bool, m: Met)
    requires id !in s.requests && Meets(s, address, m)
    ensures var t := Served(s, id, address, recognised, paid, 4);
            && id in t.requests && t.requests[id].stage == Destination(m, address.Some?, recognised, paid)
            && Spent(s, t, KeyOf(address), m, address.Some?, recognised || paid)
            && (forall other :: other in s.requests ==> other in t.requests && t.requests[other] == s.requests[other])
            && Served(s, id, address, recognised, paid, 5) == t
  {
    FiveSteps(s, id, address, recognised, paid);
    ArrivedEnds(Next(s, Arrive(id, address, recognised, paid)), id, m);
    hide StepRequest, Served, Limit, Destination;
  }

  lemma FiveSteps(s: State, id: RequestId, address: Option<Address>, recognised: bool, paid: bool)
    requires id !in s.requests
    ensures var t := Next(s, Arrive(id, address, recognised, paid));
            var four := StepRequest(StepRequest(StepRequest(StepRequest(t, id), id), id), id);
            Served(s, id, address, recognised, paid, 4) == four
              && Served(s, id, address, recognised, paid, 5) == StepRequest(four, id)
  {
    hide StepRequest;
    var t := Next(s, Arrive(id, address, recognised, paid));
    OneStep(s, id, address, recognised, paid, 0);
    OneStep(s, id, address, recognised, paid, 1);
    OneStep(s, id, address, recognised, paid, 2);
    OneStep(s, id, address, recognised, paid, 3);
    OneStep(s, id, address, recognised, paid, 4);
    assert Served(s, id, address, recognised, paid, 0) == t;
  }

  lemma {:induction false} OneStep(s: State, id: RequestId, address: Option<Address>, recognised: bool, paid: bool,
      steps: nat)
    requires id !in s.requests
    ensures var t := Served(s, id, address, recognised, paid, steps);
            && id in t.requests
            && Served(s, id, address, recognised, paid, steps + 1) == StepRequest(t, id)
  {
    hide StepRequest;
    if steps > 0 {
      OneStep(s, id, address, recognised, paid, steps - 1);
      StaysIn(Served(s, id, address, recognised, paid, steps - 1), id);
    }
  }

  lemma StaysIn(s: State, id: RequestId)
    requires id in s.requests
    ensures id in StepRequest(s, id).requests
  {}

  /** The end of a key's window empties its counter and begins its next window; all other counters, and every
      request, stay. */
  lemma WindowEnds(s: State, k: Key)
    ensures var t := Next(s, EndWindow(k));
            && Count(t.hits, k) == 0 && Count(t.ended, k) == Count(s.ended, k) + 1 && t.requests == s.requests
            && forall q :: q != k ==> Count(t.hits, q) == Count(s.hits, q) && Count(t.ended, q) == Count(s.ended, q)
  {}

  /** In every window of the key of the requests without a session, at most 600 pass, and fewer only if no more
      were charged to it; none of them has a session. */
  lemma AnonymousAdmits(acts: seq<Act>, window: nat)
    ensures var s := Exec(acts);
            && |Passed(s, Anonymous, window)| == Min(|Charged(s, Anonymous, window)|, 600)
            && forall id :: id in Charged(s, Anonymous, window) ==> s.requests[id].address.None?
  {
    Reachable(acts);
    assert WindowOk(Exec(acts), Anonymous, window);
  }

  /** A run starts without requests and hits, in the first window of every key, and goes on act by act. */
  lemma RunsGoOn(acts: seq<Act>, a: Act, k: Key)
    ensures Exec([]).requests == map[] && Count(Exec([]).hits, k) == 0 && Count(Exec([]).ended, k) == 0
    ensures Exec(acts + [a]) == Next(Exec(acts), a)
  {
    assert (acts + [a])[..|acts|] == acts;
  }
}
