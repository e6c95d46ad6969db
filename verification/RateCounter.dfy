/** The per-route counter of the global bucket (backend/src/rate-limits.ts): lifetime counts, the counts
    since the last drain and a cached ranking. */
module RateCounter {
  import opened Optional
  import RateBuckets

  // ---- Labels -------------------------------------------------------------------------------------

  const COUNTED_METHODS: seq<string> := ["GET", "HEAD", "POST", "PUT", "PATCH", "DELETE", "OPTIONS"]

  const GLOBAL_ROUTE_TEMPLATES: seq<string> := [
    "/api/agent/session", "/api/agent", "/api/chat/models", "/api/chat/model-selection", "/api/chat",
    "/api/billing/config", "/api/billing/rates", "/api/billing/status", "/api/billing/checkout", "/api/billing/portal",
    "/api/billing", "/api/auth/nonce", "/api/auth/verify", "/api/auth", "/api/manifest", "/api/server-info",
    "/api/connectors/credentials", "/api/connectors", "/api/openapi.json", "/api/docs", "/api", "/health"]

  function FindTemplate(templates: seq<string>, path: string): Option<string> {
    if templates == [] then None
    else if RateBuckets.MatchesMount(path, templates[0]) then Some(templates[0])
    else FindTemplate(templates[1..], path)
  }

  function CountedVerb(rawMethod: string): string { if rawMethod in COUNTED_METHODS then rawMethod else "OTHER" }

  function CountedRoute(path: string): string {
    match FindTemplate(GLOBAL_ROUTE_TEMPLATES, path) case None => "other" case Some(t) => if path == t then t
      else t + "/*"
  }

  function RouteLabel(rawMethod: string, rawPath: string): string {
    CountedVerb(rawMethod) + " " + CountedRoute(RateBuckets.CollapseSlashes(RateBuckets.Lower(rawPath)))
  }

  /** Every label there is: one of eight verbs with a template, a template's children or "other". */
  ghost predicate FixedLabel(name: string) {
    exists verb, route :: name == verb + " " + route && FixedVerb(verb) && FixedRoute(route)
  }

  ghost predicate FixedVerb(verb: string) { verb in COUNTED_METHODS || verb == "OTHER" }

  ghost predicate FixedRoute(route: string) {
    route == "other" || exists t :: t in GLOBAL_ROUTE_TEMPLATES && (route == t || route == t + "/*")
  }

  /** The i-th template is the first one that contains the path. */
  ghost predicate FirstTemplate(templates: seq<string>, path: string, i: nat) {
    && i < |templates| && RateBuckets.MatchesMount(path, templates[i])
    && forall j :: 0 <= j < i ==> !RateBuckets.MatchesMount(path, templates[j])
  }

  /** A template is found exactly when one contains the path, and then it is the first one that does. */
  lemma {:induction false} TemplateIsListed(templates: seq<string>, path: string)
    ensures match FindTemplate(templates, path)
            case Some(t) => t in templates && exists i: nat :: FirstTemplate(templates, path, i) && templates[i] == t
            case None => forall t :: t in templates ==> !RateBuckets.MatchesMount(path, t)
  {
    hide RateBuckets.MatchesMount;
    if templates != [] {
      var rest := templates[1..];
      TemplateIsListed(rest, path);
      if RateBuckets.MatchesMount(path, templates[0]) {
        assert FirstTemplate(templates, path, 0);
      } else if FindTemplate(rest, path).Some? {
        var i: nat :| FirstTemplate(rest, path, i) && rest[i] == FindTemplate(rest, path).value;
        assert FirstTemplate(templates, path, i + 1) by {
          forall j | 0 <= j < i + 1 ensures !RateBuckets.MatchesMount(path, templates[j]) {
            if j > 0 { assert templates[j] == rest[j - 1]; }
          }
        }
      }
    }
  }

  lemma RouteIsFixed(path: string)
    ensures FixedRoute(CountedRoute(path))
  {
    hide FindTemplate;
    TemplateIsListed(GLOBAL_ROUTE_TEMPLATES, path);
  }

  /** No request can make a label outside the fixed list. */
  lemma LabelsAreFixed(rawMethod: string, rawPath: string)
    ensures FixedLabel(RouteLabel(rawMethod, rawPath))
  {
    hide FixedRoute, CountedRoute;
    RouteIsFixed(RateBuckets.CollapseSlashes(RateBuckets.Lower(rawPath)));
    assert FixedVerb(CountedVerb(rawMethod));
  }

  /** A label says the method, or OTHER for one that is not counted by name, and the first template that contains
      the path: as it is for exactly its path, with a star for a path below it, and "other" without any. */
  lemma LabelSays(rawMethod: string, rawPath: string, lower: string)
    requires RateBuckets.InLowerCase(rawPath, lower)
    ensures
      var path := RateBuckets.WithoutRepeats(lower);
      var named := rawMethod in ["GET", "HEAD", "POST", "PUT", "PATCH", "DELETE", "OPTIONS"];
      var verb := if named then rawMethod else "OTHER";
      match FindTemplate(GLOBAL_ROUTE_TEMPLATES, path)
      case None => RouteLabel(rawMethod, rawPath) == verb + " " + "other"
      case Some(t) =>
        && RouteLabel(rawMethod, rawPath) == verb + " " + (if path == t then t else t + "/*")
        && (path == t || t + "/" <= path)
  {
    RateBuckets.PaidChatIff(rawMethod, rawPath, lower);
    TemplateIsListed(GLOBAL_ROUTE_TEMPLATES, RateBuckets.WithoutRepeats(lower));
    hide FindTemplate, RateBuckets.WithoutRepeats, RateBuckets.CollapseSlashes, RateBuckets.Lower;
  }

  // ---- The ranking --------------------------------------------------------------------------------

  datatype RouteCount = RouteCount(route: string, count: nat)
  datatype Summary = Summary(total: nat, top: seq<RouteCount>)
  type Counts = map<string, nat>

  /** Lexicographic order, in place of localeCompare. */
  predicate LexLess(a: string, b: string) {
    if b == "" then false else if a == "" then true else a[0] < b[0] || (a[0] == b[0] && LexLess(a[1..], b[1..]))
  }

  lemma {:induction false} LexTotal(a: string, b: string)
    ensures a != b ==> LexLess(a, b) || LexLess(b, a)
    ensures !(LexLess(a, b) && LexLess(b, a)) && !LexLess(a, a)
    decreases |a|
  {
    if a != "" {
      LexTotal(a[1..], a[1..]);
      if b != "" {
        LexTotal(a[1..], b[1..]);
        assert a == [a[0]] + a[1..] && b == [b[0]] + b[1..];
      }
    }
  }

  lemma {:induction false} LexTransitive(a: string, b: string, c: string)
    requires LexLess(a, b) && LexLess(b, c)
    ensures LexLess(a, c)
    decreases |a|
  {
    if a != "" && a[0] == b[0] == c[0] { LexTransitive(a[1..], b[1..], c[1..]); }
  }

  /** More requests first, then the smaller label. */
  predicate Ahead(a: RouteCount, b: RouteCount) {
    a.count > b.count || (a.count == b.count && LexLess(a.route, b.route))
  }

  ghost predicate Ranked(all: seq<RouteCount>) { forall i, j :: 0 <= i < j < |all| ==> Ahead(all[i], all[j]) }

  /** `all` ranks exactly the entries of the map. */
  ghost predicate Ranking(counts: Counts, all: seq<RouteCount>) {
    Ranked(all) && forall e :: e in all <==> e.route in counts && counts[e.route] == e.count
  }

  ghost function Sum(counts: Counts): nat {
    if counts == map[] then 0 else var k :| k in counts; counts[k] + Sum(counts - {k})
  }

  lemma {:induction false} SumSplit(counts: Counts, k: string)
    requires k in counts
    ensures Sum(counts) == counts[k] + Sum(counts - {k})
    decreases |counts|
  {
    var j :| j in counts && Sum(counts) == counts[j] + Sum(counts - {j});
    if j != k {
      SumSplit(counts - {j}, k);
      SumSplit(counts - {k}, j);
      assert counts - {j} - {k} == counts - {k} - {j};
    }
  }

  function Bump(counts: Counts, route: string): Counts {
    counts[route := (if route in counts then counts[route] else 0) + 1]
  }

  lemma SumBump(counts: Counts, route: string)
    ensures Sum(Bump(counts, route)) == Sum(counts) + 1
  {
    SumSplit(Bump(counts, route), route);
    if route in counts {
      SumSplit(counts, route);
      assert Bump(counts, route) - {route} == counts - {route};
    } else {
      assert Bump(counts, route) - {route} == counts;
    }
  }

  function Take(all: seq<RouteCount>, n: nat): seq<RouteCount> { if n < |all| then all[..n] else all }

  /** The total of the map and the first n of its ranking. */
  ghost predicate IsSummary(counts: Counts, n: nat, s: Summary) {
    s.total == Sum(counts) && exists all :: Ranking(counts, all) && s.top == Take(all, n)
  }

  lemma SameEmptiness<T>(a: seq<T>, b: seq<T>)
    requires forall e :: e in a <==> e in b
    ensures a == [] <==> b == []
  {
    if a != [] { assert a[0] in a; }
    if b != [] { assert b[0] in b; }
  }

  /** A strictly ranked list is determined by its elements. */
  lemma {:induction false} RankingIsUnique(a: seq<RouteCount>, b: seq<RouteCount>)
    requires Ranked(a) && Ranked(b) && forall e :: e in a <==> e in b
    ensures a == b
    decreases |a|
  {
    hide LexLess;
    SameEmptiness(a, b);
    if a != [] {
      assert a[0] in b;
      assert b[0] in a;
      LexTotal(a[0].route, b[0].route);
      assert a[0] == b[0];
      forall e ensures e in a[1..] <==> e in b[1..] {
        LexTotal(a[0].route, a[0].route);
        assert e in a <==> e == a[0] || e in a[1..];
        assert e in b <==> e == b[0] || e in b[1..];
      }
      RankingIsUnique(a[1..], b[1..]);
      assert a == [a[0]] + a[1..] && b == [b[0]] + b[1..];
    }
  }

  /** A map has one summary of each length, whatever order its entries are visited in. */
  lemma SummaryIsUnique(counts: Counts, n: nat, s: Summary, t: Summary)
    requires IsSummary(counts, n, s) && IsSummary(counts, n, t)
    ensures s == t
  {
    var a :| Ranking(counts, a) && s.top == Take(a, n);
    var b :| Ranking(counts, b) && t.top == Take(b, n);
    forall e ensures e in a <==> e in b {}
    RankingIsUnique(a, b);
  }

  /** In the order of their characters: a comes before b if it is a proper beginning of b, or has the smaller
      character where they first differ. */
  ghost predicate Before(a: string, b: string) {
    a < b || exists k :: 0 <= k < |a| && k < |b| && a[..k] == b[..k] && a[k] < b[k]
  }

  lemma {:induction false} LexIsBefore(a: string, b: string)
    ensures LexLess(a, b) ==> Before(a, b)
    decreases |a|
  {
    if LexLess(a, b) && a != "" {
      if a[0] < b[0] {
        assert a[..0] == b[..0];
      } else {
        LexIsBefore(a[1..], b[1..]);
        assert a == [a[0]] + a[1..] && b == [b[0]] + b[1..];
        if !(a[1..] < b[1..]) {
          var k :| 0 <= k < |a[1..]| && k < |b[1..]| && a[1..][..k] == b[1..][..k] && a[1..][k] < b[1..][k];
          assert a[..k + 1] == [a[0]] + a[1..][..k] && b[..k + 1] == [b[0]] + b[1..][..k];
          assert a[k + 1] < b[k + 1];
        }
      }
    }
  }

  /** More requests, or as many and the smaller label. */
  ghost predicate Outranks(route: string, count: nat, other: string, otherCount: nat) {
    count > otherCount || (count == otherCount && Before(route, other))
  }

  lemma TakenAt(all: seq<RouteCount>, n: nat, i: nat)
    ensures i < |all| && i < n ==> i < |Take(all, n)| && Take(all, n)[i] == all[i] && all[i] in Take(all, n)
    ensures i < |Take(all, n)| ==> i < n && i < |all|
  {
  }

  /** A summary lists entries of the map, each above the next, as many as were asked for or all there are, and no
      entry that it leaves out is above one that it lists. */
  lemma SummaryRanks(counts: Counts, n: nat, s: Summary)
    requires IsSummary(counts, n, s)
    ensures |s.top| == n || (|s.top| < n
      && forall route :: route in counts ==> RouteCount(route, counts[route]) in s.top)
    ensures forall e :: e in s.top ==> e.route in counts && counts[e.route] == e.count
    ensures forall i, j :: 0 <= i < j < |s.top| ==>
      Outranks(s.top[i].route, s.top[i].count, s.top[j].route, s.top[j].count)
    ensures forall e, route :: e in s.top && route in counts && RouteCount(route, counts[route]) !in s.top ==>
      Outranks(e.route, e.count, route, counts[route])
  {
    var all: seq<RouteCount> :| Ranking(counts, all) && s.top == Take(all, n);
    hide LexLess;
    forall i, j | 0 <= i < j < |all| ensures Outranks(all[i].route, all[i].count, all[j].route, all[j].count) {
      assert Ahead(all[i], all[j]);
      LexIsBefore(all[i].route, all[j].route);
    }
    hide Ahead, Outranks, Before;
    forall e, route | e in s.top && route in counts && RouteCount(route, counts[route]) !in s.top
      ensures Outranks(e.route, e.count, route, counts[route])
    {
      var i :| 0 <= i < |s.top| && s.top[i] == e;
      var j :| 0 <= j < |all| && all[j] == RouteCount(route, counts[route]);
      TakenAt(all, n, i);
      TakenAt(all, n, j);
    }
  }

  /** Puts an entry at its rank. */
  method Insert(all: seq<RouteCount>, e: RouteCount) returns (ranked: seq<RouteCount>)
    requires Ranked(all) && forall x :: x in all ==> x.route != e.route
    ensures Ranked(ranked) && forall x :: x in ranked <==> x == e || x in all
  {
    hide Ahead, LexLess;
    var i := 0;
    while i < |all| && Ahead(all[i], e)
      invariant i <= |all| && forall k :: 0 <= k < i ==> Ahead(all[k], e)
    {
      i := i + 1;
    }
    if i < |all| {
      assert all[i] in all;
      AheadTotal(all[i], e);
      forall k | i < k < |all| ensures Ahead(e, all[k]) { AheadTransitive(e, all[i], all[k]); }
    }
    ranked := all[..i] + [e] + all[i..];
    Inserted(all, i, e);
  }

  lemma Inserted(all: seq<RouteCount>, i: nat, e: RouteCount)
    requires Ranked(all) && i <= |all|
    requires (forall k :: 0 <= k < i ==> Ahead(all[k], e)) && forall k :: i <= k < |all| ==> Ahead(e, all[k])
    ensures var ranked := all[..i] + [e] + all[i..]; Ranked(ranked) && forall x :: x in ranked <==> x == e || x in all
  {
    hide Ahead;
    var ranked := all[..i] + [e] + all[i..];
    forall j, k | 0 <= j < k < |ranked| ensures Ahead(ranked[j], ranked[k]) {
      assert ranked[j] == if j < i then all[j] else if j == i then e else all[j - 1];
      assert ranked[k] == if k < i then all[k] else if k == i then e else all[k - 1];
    }
    assert all == all[..i] + all[i..];
  }

  lemma AheadTotal(a: RouteCount, b: RouteCount)
    requires a.route != b.route
    ensures Ahead(a, b) || Ahead(b, a)
  {
    LexTotal(a.route, b.route);
  }

  lemma AheadTransitive(a: RouteCount, b: RouteCount, c: RouteCount)
    requires Ahead(a, b) && Ahead(b, c)
    ensures Ahead(a, c)
  {
    if a.count == b.count == c.count { LexTransitive(a.route, b.route, c.route); }
  }

  /** The sum and the sorted, cut list, over the entries in any order. */
  method Summarize(counts: Counts, n: nat) returns (s: Summary)
    ensures IsSummary(counts, n, s)
  {
    hide LexLess, Ranked;
    var rest, total := counts, 0;
    var all: seq<RouteCount> := [];
    NothingRanked();
    while rest != map[]
      invariant forall k :: k in rest ==> k in counts && counts[k] == rest[k]
      invariant Ranked(all) && forall e ::
          e in all <==> e.route in counts && e.route !in rest && counts[e.route] == e.count
      invariant total + Sum(rest) == Sum(counts)
      decreases |rest|
    {
      var k :| k in rest;
      SumSplit(rest, k);
      all := Insert(all, RouteCount(k, rest[k]));
      total := total + rest[k];
      rest := rest - {k};
    }
    s := Summary(total, Take(all, n));
    assert Ranking(counts, all);
  }

  lemma NothingRanked()
    ensures Ranked([]) && Sum(map[]) == 0
  {}

  // ---- The counter --------------------------------------------------------------------------------

  datatype Cached = Cached(n: nat, summary: Summary)

  class RouteCounter {
    var total: Counts
    var interval: Counts
    var cachedTop: Option<Cached>
    /** The requests reported by the drains so far. */
    ghost var drained: nat

    constructor ()
      ensures Valid() && total == map[] && interval == map[] && drained == 0
    {
      total, interval, cachedTop, drained := map[], map[], None, 0;
    }

    /** The cache is a fresh summary, drained plus live is everything, and the labels are from the list. */
    ghost predicate Valid()
      reads this
    {
      && (cachedTop.Some? ==> IsSummary(total, cachedTop.value.n, cachedTop.value.summary))
      && Sum(total) == drained + Sum(interval)
      && forall route :: route in total ==> FixedLabel(route)
    }

    method Record(rawMethod: string, rawPath: string)
      requires Valid()
      modifies this
      ensures Valid()
      ensures total == Bump(old(total), RouteLabel(rawMethod, rawPath)) && Sum(total) == old(Sum(total)) + 1
      ensures interval == Bump(old(interval), RouteLabel(rawMethod, rawPath)) && drained == old(drained)
    {
      hide RouteLabel, IsSummary, FixedLabel;
      var route := RouteLabel(rawMethod, rawPath);
      LabelsAreFixed(rawMethod, rawPath);
      SumBump(total, route);
      SumBump(interval, route);
      total := Bump(total, route);
      interval := Bump(interval, route);
      cachedTop := None;
    }

    /** The answer is the one fresh summary of the lifetime counts, cached or not. */
    method Top(n: nat) returns (summary: Summary)
      requires Valid()
      modifies this`cachedTop
      ensures Valid() && IsSummary(total, n, summary)
      ensures forall other :: IsSummary(total, n, other) ==> other == summary
    {
      hide IsSummary, FixedLabel;
      if cachedTop.None? || cachedTop.value.n != n {
        var computed := Summarize(total, n);
        cachedTop := Some(Cached(n, computed));
      }
      summary := cachedTop.value.summary;
      forall other | IsSummary(total, n, other) ensures other == summary { SummaryIsUnique(total, n, other, summary); }
    }

    /** Reports and resets the interval; nothing is counted twice or lost. */
    method TakeInterval(n: nat) returns (summary: Summary)
      requires Valid()
      modifies this`interval, this`drained
      ensures Valid() && IsSummary(old(interval), n, summary)
      ensures interval == map[] && drained == old(drained) + summary.total && Sum(total) == drained
    {
      summary := Summarize(interval, n);
      interval := map[];
      drained := drained + summary.total;
      NothingRanked();
    }
  }
}
