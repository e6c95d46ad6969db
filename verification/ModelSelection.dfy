/** backend/src/modelSelection.ts: classifying a model's health from its providers' uptime buckets, and
    choosing the first usable model of the offered ladder. Date parsing is done before: a bucket carries its
    hour in milliseconds when its text is an exact UTC hour, and a period bound its time when it parses. */
module ModelSelection {
  import opened Optional

  const PERIOD_FRESHNESS_MS := 1200000
  const HOUR_MS := 3600000
  const HEALTHY_UPTIME: real := 0.99

  datatype Health = Healthy | Unhealthy | Unknown

  datatype Uptime = Number(value: real) | NotANumber

  /** `hour` is None for an entry that is not an object or whose hour is not an exact UTC hour. */
  datatype Bucket = Bucket(hour: Option<int>, uptime: Uptime)

  /** A provider that is not an object, or has no list of buckets, has no buckets. */
  datatype Provider = Provider(buckets: seq<Bucket>)

  datatype Response = Response(modelMatches: bool, periodStart: Option<int>, periodEnd: Option<int>,
      providers: seq<Provider>)

  /** The start of the hour of a time; division rounds down, as Math.floor does. */
  function HourOf(now: int): int { now / HOUR_MS * HOUR_MS }

  // ---- What the classification means --------------------------------------------------------------

  /** Every bucket has an hour, the newest hour is h, the current or the previous one, and all its buckets
      agree on the uptime v. */
  ghost predicate ReportsAt(p: Provider, now: int, h: int, v: real) {
    && (h == now - now % 3600000 || h == now - now % 3600000 - 3600000) && 0.0 <= v <= 1.0
    && (forall b ::
      b in p.buckets ==> b.hour.Some? && b.hour.value <= h && (b.hour.value == h ==> b.uptime == Number(v)))
    && exists b :: b in p.buckets && b.hour == Some(h)
  }

  ghost predicate Reports(p: Provider, now: int, v: real) { exists h :: ReportsAt(p, now, h, v) }

  ghost predicate IsHealthy(p: Provider, now: int) { exists v :: v >= 0.99 && Reports(p, now, v) }

  ghost predicate IsUnhealthy(p: Provider, now: int) { exists v :: v < 0.99 && Reports(p, now, v) }

  /** A provider reports one uptime at most. */
  lemma ReportsOne(p: Provider, now: int, v: real, w: real)
    requires Reports(p, now, v) && Reports(p, now, w)
    ensures v == w
  {
    var h :| ReportsAt(p, now, h, v);
    var k :| ReportsAt(p, now, k, w);
    var b :| b in p.buckets && b.hour == Some(h);
    var c :| c in p.buckets && c.hour == Some(k);
  }

  ghost predicate FreshPeriod(r: Response, now: int) {
    r.periodStart.Some? && r.periodEnd.Some? && r.periodStart.value <= r.periodEnd.value <= now
      && now - r.periodEnd.value <= 1200000
  }

  ghost predicate Verdict(r: Response, now: int, health: Health) {
    var usable := r.modelMatches && FreshPeriod(r, now);
    && (health == Healthy <==> usable && exists p :: p in r.providers && IsHealthy(p, now))
    && (health == Unhealthy <==> usable && r.providers != [] && forall p :: p in r.providers ==> IsUnhealthy(p, now))
  }

  // ---- The loops ----------------------------------------------------------------------------------

  /** The newest hour; None when a bucket has no hour. */
  method NewestHour(buckets: seq<Bucket>) returns (newest: Option<int>)
    requires buckets != []
    ensures newest.None? <==> exists b :: b in buckets && b.hour.None?
    ensures newest.Some? ==>
      (forall b :: b in buckets ==> b.hour.value <= newest.value) && exists b :: b in buckets && b.hour == newest
  {
    if buckets[0].hour.None? { return None; }
    newest := buckets[0].hour;
    for i := 1 to |buckets|
      invariant newest.Some?
      invariant forall j :: 0 <= j < i ==> buckets[j].hour.Some? && buckets[j].hour.value <= newest.value
      invariant exists j :: 0 <= j < i && buckets[j].hour == newest
    {
      if buckets[i].hour.None? { return None; }
      if buckets[i].hour.value > newest.value { newest := buckets[i].hour; }
    }
  }

  /** One provider's state. */
  method ClassifyProvider(p: Provider, now: int) returns (state: Health)
    ensures state == Healthy <==> IsHealthy(p, now)
    ensures state == Unhealthy <==> IsUnhealthy(p, now)
  {
    state := Unknown;
    if |p.buckets| == 0 { return; }
    var newest := NewestHour(p.buckets);
    if newest.None? { return; }
    if newest.value != HourOf(now) && newest.value != HourOf(now) - HOUR_MS {
      NewestIs(p, now, newest.value);
      return;
    }
    var agreed: Option<Uptime> := None;
    for i := 0 to |p.buckets|
      invariant forall j :: 0 <= j < i && p.buckets[j].hour == newest ==> agreed == Some(p.buckets[j].uptime)
      invariant agreed.Some? ==> agreed.value.Number? && 0.0 <= agreed.value.value <= 1.0
      invariant agreed.Some? ==> exists j :: 0 <= j < i && p.buckets[j].hour == newest
    {
      var b := p.buckets[i];
      if b.hour == newest {
        NewestIs(p, now, newest.value);
        assert b in p.buckets;
        if b.uptime.NotANumber? || b.uptime.value < 0.0 || b.uptime.value > 1.0 { return; }
        if agreed.Some? && agreed.value != b.uptime { return; }
        agreed := Some(b.uptime);
      }
    }
    var v := agreed.value.value;
    assert ReportsAt(p, now, newest.value, v);
    assert Reports(p, now, v);
    forall w | Reports(p, now, w) ensures w == v { ReportsOne(p, now, v, w); }
    state := if v >= HEALTHY_UPTIME then Healthy else Unhealthy;
  }

  /** Whatever hour a provider reports at is its newest one. */
  lemma NewestIs(p: Provider, now: int, newest: int)
    requires forall b :: b in p.buckets ==> b.hour.Some? && b.hour.value <= newest
    requires exists b :: b in p.buckets && b.hour == Some(newest)
    ensures forall h, v :: ReportsAt(p, now, h, v) ==> h == newest
  {
    var b :| b in p.buckets && b.hour == Some(newest);
    forall h, v | ReportsAt(p, now, h, v) ensures h == newest {
      var c :| c in p.buckets && c.hour == Some(h);
    }
  }

  method ClassifyModelHealth(r: Response, now: int) returns (health: Health)
    ensures Verdict(r, now, health)
  {
    hide IsHealthy, IsUnhealthy;
    if !r.modelMatches { return Unknown; }
    if r.periodStart.None? || r.periodEnd.None? || r.periodStart.value > r.periodEnd.value || r.periodEnd.value > now
       || now - r.periodEnd.value > PERIOD_FRESHNESS_MS {
      return Unknown;
    }
    if |r.providers| == 0 { return Unknown; }
    var states: seq<Health> := [];
    for i := 0 to |r.providers|
      invariant |states| == i
      invariant forall j ::
          0 <= j < i ==>
          (states[j] == Healthy <==> IsHealthy(r.providers[j], now))
          && (states[j] == Unhealthy <==> IsUnhealthy(r.providers[j], now))
    {
      var state := ClassifyProvider(r.providers[i], now);
      states := states + [state];
    }
    if Healthy in states {
      var j :| 0 <= j < |states| && states[j] == Healthy;
      assert r.providers[j] in r.providers;
      return Healthy;
    }
    if forall state :: state in states ==> state == Unhealthy {
      assert states[0] in states && r.providers[0] in r.providers;
      forall p | p in r.providers ensures IsUnhealthy(p, now) && !IsHealthy(p, now) {
        var j :| 0 <= j < |r.providers| && r.providers[j] == p;
        assert states[j] in states;
      }
      return Unhealthy;
    }
    var state :| state in states && state != Unhealthy;
    var j :| 0 <= j < |states| && states[j] == state;
    assert r.providers[j] in r.providers;
    return Unknown;
  }

  // ---- Order does not matter ----------------------------------------------------------------------

  ghost predicate SameBuckets(p: Provider, q: Provider) { forall b :: b in p.buckets <==> b in q.buckets }

  lemma SameReports(p: Provider, q: Provider, now: int)
    requires SameBuckets(p, q)
    ensures (IsHealthy(p, now) <==> IsHealthy(q, now)) && (IsUnhealthy(p, now) <==> IsUnhealthy(q, now))
  {
    forall v ensures Reports(p, now, v) <==> Reports(q, now, v) {
      forall h ensures ReportsAt(p, now, h, v) <==> ReportsAt(q, now, h, v) {}
    }
  }

  /** Every provider of one response has a provider with the same buckets, in any order, in the other. */
  ghost predicate Included(r: Response, q: Response) {
    forall p :: p in r.providers ==> exists o :: o in q.providers && SameBuckets(p, o)
  }

  lemma Partner(r: Response, q: Response, p: Provider) returns (o: Provider)
    requires Included(r, q) && p in r.providers
    ensures o in q.providers && SameBuckets(p, o)
  {
    o :| o in q.providers && SameBuckets(p, o);
  }

  lemma IncludedStates(r: Response, q: Response, now: int)
    requires Included(r, q)
    ensures (exists p :: p in r.providers && IsHealthy(p, now)) ==> exists o :: o in q.providers && IsHealthy(o, now)
    ensures (forall o :: o in q.providers ==> IsUnhealthy(o, now)) ==>
      forall p :: p in r.providers ==> IsUnhealthy(p, now)
    ensures r.providers != [] ==> q.providers != []
  {
    hide IsHealthy, IsUnhealthy, SameBuckets, Included;
    if p :| p in r.providers && IsHealthy(p, now) {
      var o := Partner(r, q, p);
      SameReports(p, o, now);
    }
    forall p | p in r.providers && forall o :: o in q.providers ==> IsUnhealthy(o, now) ensures IsUnhealthy(p, now) {
      var o := Partner(r, q, p);
      SameReports(p, o, now);
    }
    if r.providers != [] {
      var o := Partner(r, q, r.providers[0]);
    }
  }

  /** Permuting the providers, and the buckets inside a provider, does not change the verdict. */
  lemma OrderDoesNotMatter(r: Response, q: Response, now: int, health: Health)
    requires Included(r, q) && Included(q, r)
    requires r.modelMatches == q.modelMatches && r.periodStart == q.periodStart && r.periodEnd == q.periodEnd
    ensures Verdict(r, now, health) <==> Verdict(q, now, health)
  {
    hide IsHealthy, IsUnhealthy, Included;
    IncludedStates(r, q, now);
    IncludedStates(q, r, now);
  }

  /** There is one verdict. */
  lemma VerdictIsUnique(r: Response, now: int, a: Health, b: Health)
    requires Verdict(r, now, a) && Verdict(r, now, b)
    ensures a == b
  {
    if r.providers != [] {
      assert r.providers[0] in r.providers;
      Exclusive(r.providers[0], now);
    }
  }

  lemma Exclusive(p: Provider, now: int)
    ensures !(IsHealthy(p, now) && IsUnhealthy(p, now))
  {
    forall v, w | Reports(p, now, v) && Reports(p, now, w) ensures v == w { ReportsOne(p, now, v, w); }
  }

  // ---- Selection ----------------------------------------------------------------------------------

  datatype Reason = IsUp | HealthUnverified | AllUnhealthy
  datatype Selection = Selection(model: Option<string>, reason: Reason)

  method IndexOf(states: seq<Health>, health: Health) returns (index: Option<nat>)
    ensures index.Some? ==> index.value < |states| && states[index.value] == health && health !in states[..index.value]
    ensures index.None? ==> health !in states
  {
    for i := 0 to |states|
      invariant health !in states[..i]
    {
      if states[i] == health { return Some(i); }
      assert states[..i + 1] == states[..i] + [states[i]];
    }
    assert states[..|states|] == states;
    return None;
  }

  /** The earliest healthy candidate, else the earliest unverified one, else none, which happens exactly
      when all are unhealthy. `responses` holds None where a candidate's health could not be fetched. */
  method SelectChatModel(candidates: seq<string>, responses: seq<Option<Response>>, now: seq<int>)
      returns (selection: Selection, ghost states: seq<Health>)
    requires |candidates| == |responses| == |now|
    ensures |states| == |candidates|
    ensures forall i :: 0 <= i < |states| ==> if responses[i].None? then states[i] == Unknown
        else Verdict(responses[i].value, now[i], states[i])
    ensures selection.reason == IsUp <==> Healthy in states
    ensures selection.reason == AllUnhealthy <==> forall i :: 0 <= i < |states| ==> states[i] == Unhealthy
    ensures selection.model == None <==> selection.reason == AllUnhealthy
    ensures selection.reason == IsUp ==>
      exists i ::
        0 <= i < |states| && selection.model == Some(candidates[i]) && states[i] == Healthy && Healthy !in states[..i]
    ensures selection.reason == HealthUnverified ==>
      exists i ::
        0 <= i < |states| && selection.model == Some(candidates[i]) && states[i] == Unknown && Unknown !in states[..i]
  {
    hide Verdict;
    var found: seq<Health> := [];
    for i := 0 to |candidates|
      invariant |found| == i
      invariant forall j :: 0 <= j < i ==> if responses[j].None? then found[j] == Unknown
          else Verdict(responses[j].value, now[j], found[j])
    {
      var health := Unknown;
      if responses[i].Some? { health := ClassifyModelHealth(responses[i].value, now[i]); }
      found := found + [health];
    }
    states := found;
    var healthy := IndexOf(found, Healthy);
    if healthy.Some? { return Selection(Some(candidates[healthy.value]), IsUp), states; }
    var unknown := IndexOf(found, Unknown);
    if unknown.Some? {
      assert found[unknown.value] == Unknown;
      return Selection(Some(candidates[unknown.value]), HealthUnverified), states;
    }
    selection := Selection(None, AllUnhealthy);
    assert forall i :: 0 <= i < |states| ==> states[i] in states;
  }
}
