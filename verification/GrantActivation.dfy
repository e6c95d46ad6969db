/** What follows an accepted grant: the activation of its resources behind the key router
    (backend/src/portable-delegation.ts). */
module GrantActivation {
  import opened Optional
  import opened GrantVerify
  import opened Pigeonhole
  import KvPaths

  // ---- What the verifier hands over ---------------------------------------------------------------

  /** The accepted resources are the policy's, each exactly once, in the order of the entries. */
  lemma AcceptedResources(input: Input, policy: Policy, now: nat)
    requires (input.att.Some? ==> IsJson(input.att.value)) && Verify(input, policy, now).Accepted?
    ensures var v := Verify(input, policy, now).verified;
            && v.policy == policy && v.owner == input.owner && v.space == input.space
            && |v.resources| == 2 && v.resources[0] != v.resources[1]
            && (forall r :: r in v.resources <==> r in Expected(policy))
            && now + 60000 <= v.expiresAt <= Min(input.sessionExpiry.value, now + 2592300000)
  {
    hide Expected, EntriesCode, LifetimeCode, IsJson, Grants, PolicyTable, Targets, Matches;
    var table, att, v := Expected(policy), input.att.value, Verify(input, policy, now).verified;
    PoliciesAreTables(policy);
    AcceptsIff(input, policy, now);
    TargetsAreListed(table, input.space, att);
    DifferentEntries(att, input.space, v.resources[0], v.resources[1]);
    TwoOfTwo(v.resources, table);
    WholeMilliseconds(input.exp.seconds * 1000.0, now, input.sessionExpiry.value);
  }

  lemma WholeMilliseconds(x: real, now: nat, session: int)
    requires (now + 60000) as real < x && x <= session as real && x <= (now + 2592300000) as real
    ensures now + 60000 <= x.Floor <= Min(session, now + 2592300000)
  {}

  lemma TwoOfTwo(rs: seq<Resource>, table: seq<Resource>)
    requires |rs| == 2 == |table| && rs[0] != rs[1] && forall k :: 0 <= k < |rs| ==> rs[k] in table
    ensures forall r :: r in rs <==> r in table
  {
    DistinctFillsList(rs, table);
  }

  lemma TargetsAreListed(table: seq<Resource>, space: string, att: seq<Attenuation>)
    requires PolicyTable(table) && IsJson(att) && EntriesCode(table, space, att).None?
    ensures var rs := Targets(table, space, att);
            |rs| == |att| && forall k :: 0 <= k < |rs| ==> rs[k] in table && Grants(att[k], space, rs[k])
  {
    hide EntryCode, TargetOf, Grants, PolicyTable, EntriesCode, IsJson, Targets;
    EntriesIff(table, space, att);
    forall k | 0 <= k < |att| ensures var r := Targets(table, space, att)[k]; r in table && Grants(att[k], space, r) {
      JsonEntry(att, k);
      EntryIff(table, space, att[k]);
    }
  }

  lemma JsonEntry(att: seq<Attenuation>, k: nat)
    requires IsJson(att) && k < |att|
    ensures att[k] in att && (att[k].abilities.Record? ==> DistinctActions(att[k].abilities.grants))
  {}

  lemma DifferentEntries(att: seq<Attenuation>, space: string, r: Resource, q: Resource)
    requires IsJson(att) && |att| >= 2 && Grants(att[0], space, r) && Grants(att[1], space, q)
    ensures r != q
  {}

  // ---- Shape checks -------------------------------------------------------------------------------

  const MAX_ACTIVATABLE_RESOURCES := 4

  function NormalizeService(service: string): string { if "tinycloud." <= service then service[10..] else service }

  function CountService(resources: seq<Resource>, service: string): nat {
    if resources == [] then 0
    else
      var last := resources[|resources| - 1];
      CountService(resources[..|resources| - 1], service) + if NormalizeService(last.service) == service then 1 else 0
  }

  lemma CountNone()
    ensures forall s :: CountService([], s) == 0
  {}

  lemma CountStep(resources: seq<Resource>, i: nat)
    requires i < |resources|
    ensures forall s ::
        CountService(resources[..i + 1], s)
        == CountService(resources[..i], s) + if NormalizeService(resources[i].service) == s then 1 else 0
  {
    assert resources[..i + 1][..i] == resources[..i];
  }

  ghost predicate SupportedShape(resources: seq<Resource>) {
    && 1 <= |resources| <= 4
    && forall s :: s in ["sql", "duckdb", "hooks"] ==> CountService(resources, s) <= 1
  }

  /** Counts the resources of each service and refuses a second one of a singleton service. */
  method AssertSupportedShape(resources: seq<Resource>) returns (ok: bool)
    ensures ok <==> SupportedShape(resources)
  {
    hide CountService, NormalizeService;
    if |resources| == 0 || |resources| > MAX_ACTIVATABLE_RESOURCES { return false; }
    CountNone();
    var counts: map<string, nat> := map[];
    for i := 0 to |resources|
      invariant forall s :: CountService(resources[..i], s) == if s in counts then counts[s] else 0
    {
      var service := NormalizeService(resources[i].service);
      counts := counts[service := (if service in counts then counts[service] else 0) + 1];
      CountStep(resources, i);
    }
    assert resources[..|resources|] == resources;
    var singletons := ["sql", "duckdb", "hooks"];
    for j := 0 to |singletons|
      invariant forall i :: 0 <= i < j ==> CountService(resources, singletons[i]) <= 1
    {
      var n := if singletons[j] in counts then counts[singletons[j]] else 0;
      assert n == CountService(resources, singletons[j]);
      if n > 1 { return false; }
    }
    return true;
  }

  predicate ExactExoShape(resources: seq<Resource>) {
    && |resources| == 2
    && forall e :: e in Expected(ExoSync) ==> exists r :: r in resources && NormalizeService(r.service) == e.service
                                                 && r.path == e.path && |r.actions| == |e.actions|
                                                 && forall a :: a in e.actions ==> a in r.actions
  }

  /** A KV resource with this path and exactly these actions, none repeated. */
  ghost predicate IsKv(r: Resource, path: string, actions: seq<string>) {
    && (r.service == "kv" || r.service == "tinycloud.kv")
    && r.path == path && Distinct(r.actions) && forall a :: a in r.actions <==> a in actions
  }

  ghost predicate IsRequests(r: Resource) {
    IsKv(r, "xyz.tinycloud.tinychat/exo/v1/requests/", ["tinycloud.kv/get", "tinycloud.kv/list", "tinycloud.kv/del"])
  }

  ghost predicate IsJobs(r: Resource) {
    IsKv(r, "xyz.tinycloud.tinychat/exo/v1/jobs/", ["tinycloud.kv/get", "tinycloud.kv/put", "tinycloud.kv/del"])
  }

  /** An exo sync grant activates exactly its two KV prefixes with exactly their abilities, in either order. */
  lemma ExoShapeIff(resources: seq<Resource>)
    ensures ExactExoShape(resources) <==>
      && |resources| == 2
      && ((IsRequests(resources[0]) && IsJobs(resources[1])) || (IsJobs(resources[0]) && IsRequests(resources[1])))
  {
    hide IsRequests, IsJobs;
    var requests, jobs := Expected(ExoSync)[0], Expected(ExoSync)[1];
    PathsDiffer();
    forall r { FitsIff(r); }
    if |resources| == 2 {
      var a, b := resources[0], resources[1];
      assert forall r :: r in resources <==> r == a || r == b;
      assert ExactExoShape(resources) <==>
        (Fits(a, requests) || Fits(b, requests))
          && (Fits(a, jobs) || Fits(b, jobs)) by { hide Fits; FitsAll(resources); }
    }
  }

  /** What the check asks of a resource for an expected one. */
  predicate Fits(r: Resource, e: Resource) {
    && NormalizeService(r.service) == e.service && r.path == e.path && |r.actions| == |e.actions|
    && forall a :: a in e.actions ==> a in r.actions
  }

  lemma FitsAll(resources: seq<Resource>)
    ensures ExactExoShape(resources) <==>
      |resources| == 2 && forall e :: e in Expected(ExoSync) ==> exists r :: r in resources && Fits(r, e)
  {}

  lemma PathsDiffer()
    ensures Expected(ExoSync)[0].path != Expected(ExoSync)[1].path
  {
    assert Expected(ExoSync)[0].path[30] == 'r' && Expected(ExoSync)[1].path[30] == 'j';
  }

  lemma KvServiceIff(service: string)
    ensures NormalizeService(service) == "kv" <==> service == "kv" || service == "tinycloud.kv"
  {
    if "tinycloud." <= service {
      assert service == service[..10] + service[10..];
      assert "tinycloud." + "kv" == "tinycloud.kv";
    }
  }

  lemma SameActionsIff(actions: seq<string>, expected: seq<string>)
    requires Distinct(expected)
    ensures |actions| == |expected| && (forall a :: a in expected ==> a in actions) <==>
      Distinct(actions) && forall a :: a in actions <==> a in expected
  {
    if |actions| <= |expected| && forall a :: a in expected ==> a in actions { DistinctFillsList(expected, actions); }
    if Distinct(actions) && forall a :: a in actions <==> a in expected {
      SizeOfDistinct(actions);
      SizeOfDistinct(expected);
      assert SetOf(actions) == SetOf(expected);
    }
  }

  lemma FitsKvIff(r: Resource, e: Resource)
    requires e in Expected(ExoSync)
    ensures Fits(r, e) <==> IsKv(r, e.path, e.actions)
  {
    KvServiceIff(r.service);
    PoliciesAreTables(ExoSync);
    SameActionsIff(r.actions, e.actions);
    ExoIsKv(e);
  }

  lemma FitsIff(r: Resource)
    ensures Fits(r, Expected(ExoSync)[0]) <==> IsRequests(r)
    ensures Fits(r, Expected(ExoSync)[1]) <==> IsJobs(r)
  {
    hide Fits, IsKv;
    assert Expected(ExoSync)[0].path == "xyz.tinycloud.tinychat/exo/v1/requests/";
    assert Expected(ExoSync)[1].path == "xyz.tinycloud.tinychat/exo/v1/jobs/";
    FitsKvIff(r, Expected(ExoSync)[0]);
    FitsKvIff(r, Expected(ExoSync)[1]);
  }

  /** Activation's shape check for the grant's policy. */
  ghost predicate Activatable(v: Verified) {
    if v.policy == ExoSync then ExactExoShape(v.resources) else SupportedShape(v.resources)
  }

  lemma TableServices(policy: Policy)
    ensures forall r :: r in Expected(policy) ==> NormalizeService(r.service) == r.service && r.service in ["sql", "kv"]
    ensures forall r, q ::
        r in Expected(policy) && q in Expected(policy) && r.service == "sql" && q.service == "sql" ==> r == q
  {
    assert |"sql"| == 3 && |"kv"| == 2 && |"tinycloud."| == 10;
    assert "sql"[0] != "kv"[0];
  }

  /** No accepted grant is refused by the shape check that activation makes for its policy. */
  lemma AcceptedIsActivatable(input: Input, policy: Policy, now: nat)
    requires (input.att.Some? ==> IsJson(input.att.value)) && Verify(input, policy, now).Accepted?
    ensures Activatable(Verify(input, policy, now).verified)
  {
    hide Verify, Expected, NormalizeService, IsJson;
    AcceptedResources(input, policy, now);
    TableServices(policy);
    var rs := Verify(input, policy, now).verified.resources;
    if policy == ExoSync {
      forall e | e in Expected(ExoSync) ensures e in rs && NormalizeService(e.service) == e.service {}
    } else {
      var a, b := rs[0], rs[1];
      assert rs[..1] == [a] && [a][..0] == [] && [a][0] == a;
      assert a in rs && b in rs;
      forall s | s in ["sql", "duckdb", "hooks"] ensures CountService(rs, s) <= 1 {
        assert CountService([], s) == 0;
        CountOne(a, s);
        assert rs[..|rs| - 1] == [a];
        assert "sql"[0] == 's' && "kv"[0] == 'k' && "duckdb"[0] == 'd' && "hooks"[0] == 'h';
      }
    }
  }

  lemma CountOne(a: Resource, s: string)
    ensures CountService([a], s) == if NormalizeService(a.service) == s then 1 else 0
  {
    assert [a][..0] == [];
  }

  /** No grant is accepted under both policies. */
  lemma PoliciesDoNotMix(input: Input, now: nat, later: nat)
    requires (input.att.Some? ==> IsJson(input.att.value)) && Verify(input, TranscriptWriter, now).Accepted?
    ensures Verify(input, ExoSync, later).Refused?
  {
    hide Verify, IsJson;
    AcceptsIff(input, TranscriptWriter, now);
    BothTables(input.att.value, input.space);
    if Verify(input, ExoSync, later).Accepted? {
      AcceptsIff(input, ExoSync, later);
    }
  }

  lemma BothTables(att: seq<Attenuation>, space: string)
    ensures !Matches(att, space, Expected(TranscriptWriter)) || !Matches(att, space, Expected(ExoSync))
  {
    hide Matches, Expected;
    if Matches(att, space, Expected(TranscriptWriter)) && Matches(att, space, Expected(ExoSync)) {
      var sql := SqlResource();
      var e := EntryFor(att, space, Expected(TranscriptWriter), sql);
      var r := ResourceFor(att, space, Expected(ExoSync), e);
      ExoIsKv(r);
      SameService(space, sql, r);
    }
  }

  lemma SqlResource() returns (sql: Resource)
    ensures sql in Expected(TranscriptWriter) && sql.service == "sql"
  {
    sql := Expected(TranscriptWriter)[0];
  }

  lemma ExoIsKv(r: Resource)
    requires r in Expected(ExoSync)
    ensures r.service == "kv"
  {}

  lemma SameService(space: string, sql: Resource, r: Resource)
    requires sql.service == "sql" && r.service == "kv"
    ensures Uri(space, sql) != Uri(space, r)
  {
    assert Uri(space, sql)[|space| + 1] == 's';
    assert Uri(space, r)[|space| + 1] == 'k';
  }

  // ---- Activation ---------------------------------------------------------------------------------

  /** The combined access: the entries of the key router, each tied to the activation it forwards to, and
      the activation whose SQL access is used. */
  datatype Access = Access(kv: seq<KvPaths.Resource>, sql: Option<nat>)

  /** The activated KV resources, in order; `access` is the position of the activation. */
  function KvEntries(resources: seq<Resource>): seq<KvPaths.Resource> {
    if resources == [] then []
    else
      var n := |resources| - 1;
      KvEntries(resources[..n]) + if NormalizeService(resources[n].service) == "kv"
        then [KvPaths.Resource(resources[n].path, n)] else []
  }

  /** The position of the first activated SQL resource. */
  ghost predicate FirstSql(resources: seq<Resource>, sql: Option<nat>) {
    match sql
    case None => forall j :: 0 <= j < |resources| ==> NormalizeService(resources[j].service) != "sql"
    case Some(i) =>
      && i < |resources| && NormalizeService(resources[i].service) == "sql"
      && forall j :: 0 <= j < i ==> NormalizeService(resources[j].service) != "sql"
  }

  lemma NothingActivated()
    ensures KvEntries([]) == [] && FirstSql([], None)
  {}

  lemma OneMoreActivated(resources: seq<Resource>, i: nat, sql: Option<nat>)
    requires i < |resources| && FirstSql(resources[..i], sql)
    ensures var service := NormalizeService(resources[i].service);
            && KvEntries(resources[..i + 1])
              == KvEntries(resources[..i]) + (if service == "kv" then [KvPaths.Resource(resources[i].path, i)] else [])
            && FirstSql(resources[..i + 1], if service == "sql" && sql.None? then Some(i) else sql)
  {
    hide NormalizeService;
    assert resources[..i + 1][..i] == resources[..i];
  }

  /** Activates the resources one by one; None is a refused shape. */
  method Activate(v: Verified) returns (access: Option<Access>)
    ensures access.Some? <==> Activatable(v)
    ensures access.Some? ==> access.value.kv == KvEntries(v.resources) && FirstSql(v.resources, access.value.sql)
  {
    if v.policy == ExoSync {
      if !ExactExoShape(v.resources) { return None; }
    } else {
      var ok := AssertSupportedShape(v.resources);
      if !ok { return None; }
    }
    hide ExactExoShape, SupportedShape, NormalizeService, FirstSql, KvEntries, CountService;
    NothingActivated();
    var kv: seq<KvPaths.Resource> := [];
    var sql: Option<nat> := None;
    for i := 0 to |v.resources|
      invariant kv == KvEntries(v.resources[..i])
      invariant FirstSql(v.resources[..i], sql)
    {
      var service := NormalizeService(v.resources[i].service);
      OneMoreActivated(v.resources, i, sql);
      if service == "kv" { kv := kv + [KvPaths.Resource(v.resources[i].path, i)]; }
      if service == "sql" && sql.None? { sql := Some(i); }
    }
    assert v.resources[..|v.resources|] == v.resources;
    return Some(Access(kv, sql));
  }

  lemma {:induction false} EntriesComeFromResources(resources: seq<Resource>, e: KvPaths.Resource)
    requires e in KvEntries(resources)
    ensures e.access < |resources| && NormalizeService(resources[e.access].service) == "kv"
      && resources[e.access].path == e.path
    decreases |resources|
  {
    var n := |resources| - 1;
    if e in KvEntries(resources[..n]) { EntriesComeFromResources(resources[..n], e); }
  }

  /** What the router forwards goes to the activation of a KV resource of the policy and lies under it. */
  ghost predicate ForwardedWithin(rs: seq<Resource>, policy: Policy, f: KvPaths.Forwarded) {
    && f.access < |rs| && rs[f.access] in Expected(policy) && NormalizeService(rs[f.access].service) == "kv"
    && KvPaths.Split(KvPaths.Normalize(rs[f.access].path)) <= KvPaths.Split(KvPaths.Normalize(f.key))
    && KvPaths.RemoveDots(f.key, "") == f.key
  }

  lemma UnderResourceIsWithin(rs: seq<Resource>, policy: Policy, f: KvPaths.Forwarded)
    requires (forall r :: r in rs ==> r in Expected(policy)) && KvPaths.LiesUnder(KvEntries(rs), f)
    ensures ForwardedWithin(rs, policy, f)
  {
    hide Expected, KvPaths.Split, KvPaths.RemoveDots, KvPaths.Normalize, NormalizeService, KvEntries;
    var e :| e in KvEntries(rs) && e.access == f.access
      && KvPaths.Split(KvPaths.Normalize(e.path)) <= KvPaths.Split(KvPaths.Normalize(f.key));
    EntriesComeFromResources(rs, e);
    assert rs[e.access] in rs;
  }

  lemma {:induction false} KvResourceHasEntry(rs: seq<Resource>, i: nat)
    requires i < |rs| && NormalizeService(rs[i].service) == "kv"
    ensures KvEntries(rs) != []
    decreases |rs|
  {
    hide NormalizeService;
    if i < |rs| - 1 { KvResourceHasEntry(rs[..|rs| - 1], i); }
  }

  lemma PolicyHasKv(policy: Policy) returns (r: Resource)
    ensures r in Expected(policy) && NormalizeService(r.service) == "kv"
  {
    r := Expected(policy)[1];
    TableServices(policy);
  }

  /** An accepted grant always activates a key router. */
  lemma AcceptedHasRouter(input: Input, policy: Policy, now: nat)
    requires (input.att.Some? ==> IsJson(input.att.value)) && Verify(input, policy, now).Accepted?
    ensures KvEntries(Verify(input, policy, now).verified.resources) != []
  {
    hide Verify, Expected, IsJson, KvEntries, NormalizeService;
    AcceptedResources(input, policy, now);
    var rs := Verify(input, policy, now).verified.resources;
    var r := PolicyHasKv(policy);
    assert r in rs;
    var i :| 0 <= i < |rs| && rs[i] == r;
    KvResourceHasEntry(rs, i);
  }

  ghost predicate ListedWithin(rs: seq<Resource>, policy: Policy, l: KvPaths.Listing) {
    && l.options.prefix.Some? && ForwardedWithin(rs, policy, KvPaths.Forwarded(l.access, l.options.prefix.value))
    && ForwardedWithin(rs, policy, KvPaths.Forwarded(l.access, KvPaths.Joined(l.options)))
  }

  /** End to end: for an accepted grant there is a router, and every key and every listing it forwards lies,
      segment by segment, under a KV resource of the grant's policy and goes to that resource's activation; a
      listing does so with its path option joined to its prefix and without. What is forwarded is the key that
      was asked for, and the listing's prefix what its options ask for, if anything. */
  lemma ForwardsOnlyGrantedKeys(input: Input, policy: Policy, now: nat, scope: string, key: string,
      options: KvPaths.Options)
    requires (input.att.Some? ==> IsJson(input.att.value)) && Verify(input, policy, now).Accepted?
    ensures
      var rs := Verify(input, policy, now).verified.resources;
      var asked := KvPaths.Requested(KvPaths.Requested(scope, KvPaths.Text(options.prefix)),
        KvPaths.Text(options.path));
      && KvEntries(rs) != []
      && (match KvPaths.Route(KvEntries(rs), scope, key)
          case None => true
          case Some(f) => ForwardedWithin(rs, policy, f) && f.key == KvPaths.Requested(scope, key))
      && (match KvPaths.RouteOptions(KvEntries(rs), scope, options)
          case None => true
          case Some(l) => ListedWithin(rs, policy, l) && (asked != "" ==> l.options.prefix == Some(asked)))
  {
    hide Verify, Expected, IsJson, KvEntries, KvPaths.Route, KvPaths.RouteOptions, KvPaths.LiesUnder, KvPaths.Joined,
         KvPaths.Requested, ForwardedWithin;
    AcceptedResources(input, policy, now);
    AcceptedHasRouter(input, policy, now);
    var rs := Verify(input, policy, now).verified.resources;
    KvPaths.RouterStaysUnderResources(KvEntries(rs), scope, key, options);
    var routed, listed := KvPaths.Route(KvEntries(rs), scope, key), KvPaths.RouteOptions(KvEntries(rs), scope, options);
    if routed.Some? {
      UnderResourceIsWithin(rs, policy, routed.value);
      KvPaths.RouteIff(KvEntries(rs), scope, key, routed.value);
    }
    if listed.Some? {
      var l := listed.value;
      UnderResourceIsWithin(rs, policy, KvPaths.Forwarded(l.access, l.options.prefix.value));
      UnderResourceIsWithin(rs, policy, KvPaths.Forwarded(l.access, KvPaths.Joined(l.options)));
      KvPaths.ListedPrefix(KvEntries(rs), scope, options);
    }
  }

  /** Everything granted is reachable: an allowed key under a KV resource of the grant's policy is forwarded as it
      is. */
  lemma GrantedKeysAreForwarded(input: Input, policy: Policy, now: nat, scope: string, key: string, r: Resource)
    requires (input.att.Some? ==> IsJson(input.att.value)) && Verify(input, policy, now).Accepted?
    requires r in Expected(policy) && NormalizeService(r.service) == "kv"
    requires KvPaths.KeyAllowed(KvPaths.Requested(scope, key))
      && KvPaths.Split(KvPaths.Normalize(r.path)) <= KvPaths.Split(KvPaths.Normalize(KvPaths.Requested(scope, key)))
    ensures
      var routed := KvPaths.Route(KvEntries(Verify(input, policy, now).verified.resources), scope, key);
      routed.Some? && routed.value.key == KvPaths.Requested(scope, key)
  {
    hide Verify, Expected, IsJson, KvEntries, KvPaths.Route, KvPaths.Requested, KvPaths.KeyAllowed, NormalizeService;
    AcceptedResources(input, policy, now);
    var rs := Verify(input, policy, now).verified.resources;
    assert r in rs;
    var i :| 0 <= i < |rs| && rs[i] == r;
    EntryOfResource(rs, i);
    KvPaths.RouterIsComplete(KvEntries(rs), scope, key, KvPaths.Resource(r.path, i));
  }

  lemma {:induction false} EntryOfResource(rs: seq<Resource>, i: nat)
    requires i < |rs| && NormalizeService(rs[i].service) == "kv"
    ensures KvPaths.Resource(rs[i].path, i) in KvEntries(rs)
    decreases |rs|
  {
    hide NormalizeService;
    if i < |rs| - 1 { EntryOfResource(rs[..|rs| - 1], i); }
  }
}
