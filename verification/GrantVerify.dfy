/** backend/src/delegation-verify.ts: which resources, abilities and lifetimes a signed grant may carry.

    Signature, CID, SIWE and proof checks are represented by the error code of the first one that fails. */
module GrantVerify {
  import opened Optional
  import opened Pigeonhole

  // ---- Data ---------------------------------------------------------------------------------------

  datatype Code =
    | UnsupportedBundleShape | UntrustedHost | UnsupportedDelegationFormat | CidMismatch | BadSignature | WrongDelegatee
    | BadSessionSignature | WrongDelegator | SessionExpired | SessionMismatch | ProofMismatch | InsufficientDelegation
    | ForeignSpaceDelegation | OverbroadDelegation | Expired | ExpiryTooLong | NotYetValid

  /** One element of an ability's list of conditions. */
  datatype Clause = Conditions(count: nat) | NotAnObject
  datatype Clauses = NotAList | List(items: seq<Clause>)
  datatype Grant = Grant(action: string, clauses: Clauses)
  datatype Abilities = NotARecord | Record(grants: seq<Grant>)
  datatype Attenuation = Attenuation(uri: string, abilities: Abilities)

  /** A JSON value where a number is expected. */
  datatype Numeric = Absent | Number(seconds: real) | NotANumber

  datatype Resource = Resource(service: string, path: string, actions: seq<string>)
  datatype Policy = TranscriptWriter | ExoSync

  /** What the signed parts say. `early` is the first failing check before the session's expiry is read,
      `late` the first failing one after it; `att` is None when it is not a record. */
  datatype Input = Input(early: Option<Code>, owner: string, space: string, sessionExpiry: Option<int>,
      late: Option<Code>,
                         att: Option<seq<Attenuation>>, exp: Numeric, nbf: Numeric)

  datatype Verified = Verified(owner: string, space: string, policy: Policy, resources: seq<Resource>, expiresAt: int)
  datatype GrantResult = Accepted(verified: Verified) | Refused(code: Code)

  const APP_ID := "xyz.tinycloud.tinychat"

  function Expected(policy: Policy): seq<Resource> {
    match policy
    case TranscriptWriter => [
      Resource("sql", APP_ID + "/connectors", ["tinycloud.sql/read", "tinycloud.sql/write"]),
      Resource("kv", APP_ID + "/connectors/tinycloud-transcriber/", ["tinycloud.kv/get", "tinycloud.kv/put"])]
    case ExoSync => [
      Resource("kv", APP_ID + "/exo/v1/requests/", ["tinycloud.kv/get", "tinycloud.kv/list", "tinycloud.kv/del"]),
      Resource("kv", APP_ID + "/exo/v1/jobs/", ["tinycloud.kv/get", "tinycloud.kv/put", "tinycloud.kv/del"])]
  }

  function Suffix(r: Resource): string { r.service + "/" + r.path }

  function Uri(space: string, r: Resource): string { space + "/" + Suffix(r) }

  /** The keys of a JSON object are distinct. */
  ghost predicate DistinctUris(att: seq<Attenuation>) { forall i, j :: 0 <= i < j < |att| ==> att[i].uri != att[j].uri }

  ghost predicate DistinctActions(grants: seq<Grant>) {
    forall i, j :: 0 <= i < j < |grants| ==> grants[i].action != grants[j].action
  }

  ghost predicate IsJson(att: seq<Attenuation>) {
    DistinctUris(att) && forall e :: e in att ==> e.abilities.Record? ==> DistinctActions(e.abilities.grants)
  }

  ghost predicate PolicyTable(table: seq<Resource>) {
    && (forall i, j :: 0 <= i < j < |table| ==> Suffix(table[i]) != Suffix(table[j]))
    && forall r :: r in table ==> Distinct(r.actions)
  }

  // ---- The checks, in the order the code makes them -----------------------------------------------

  predicate Unconditional(c: Clauses) { c.List? && (c.items == [] || (|c.items| == 1 && c.items[0] == Conditions(0))) }

  function Target(table: seq<Resource>, suffix: string): Option<Resource> {
    if table == [] then None else if Suffix(table[0]) == suffix then Some(table[0]) else Target(table[1..], suffix)
  }

  function AbilitiesCode(abilities: Abilities, actions: seq<string>): Option<Code> {
    if abilities.NotARecord? then Some(OverbroadDelegation)
    else if exists i ::
      0 <= i < |abilities.grants| && abilities.grants[i].action !in actions then Some(OverbroadDelegation)
    else if |abilities.grants| != |actions| then Some(InsufficientDelegation)
    else if exists i ::
      0 <= i < |abilities.grants| && !Unconditional(abilities.grants[i].clauses) then Some(OverbroadDelegation)
    else None
  }

  function TargetOf(table: seq<Resource>, space: string, e: Attenuation): Option<Resource> {
    if space + "/" <= e.uri then Target(table, e.uri[|space| + 1..]) else None
  }

  function EntryCode(table: seq<Resource>, space: string, e: Attenuation): Option<Code> {
    if !(space + "/" <= e.uri) then Some(ForeignSpaceDelegation)
    else match TargetOf(table, space, e)
      case None => Some(OverbroadDelegation)
      case Some(r) => AbilitiesCode(e.abilities, r.actions)
  }

  /** The code of the first failing entry. */
  function EntriesCode(table: seq<Resource>, space: string, att: seq<Attenuation>): Option<Code> {
    if att == [] then None
    else match EntryCode(table, space, att[0]) case Some(c) => Some(c) case None => EntriesCode(table, space, att[1..])
  }

  function Targets(table: seq<Resource>, space: string, att: seq<Attenuation>): seq<Resource>
    requires EntriesCode(table, space, att) == None
  {
    if att == [] then [] else [TargetOf(table, space, att[0]).value] + Targets(table, space, att[1..])
  }

  function Min(a: int, b: int): int { if a < b then a else b }

  function LifetimeCode(exp: Numeric, nbf: Numeric, sessionExpiry: int, now: nat): Option<Code> {
    if !exp.Number? || exp.seconds * 1000.0 <= (now + 60000) as real then Some(Expired)
    else if exp.seconds * 1000.0 > Min(sessionExpiry, now + 30 * 86400000 + 300000) as real then Some(ExpiryTooLong)
    else if nbf == NotANumber || (nbf.Number? && nbf.seconds * 1000.0 > (now + 60000) as real) then Some(NotYetValid)
    else None
  }

  function Verify(input: Input, policy: Policy, now: nat): GrantResult {
    var table := Expected(policy);
    if input.early.Some? then Refused(input.early.value)
    else if input.sessionExpiry.None? || input.sessionExpiry.value <= now then Refused(SessionExpired)
    else if input.late.Some? then Refused(input.late.value)
    else if input.att.None? then Refused(InsufficientDelegation)
    else if EntriesCode(table, input.space, input.att.value).Some?
      then Refused(EntriesCode(table, input.space, input.att.value).value)
    else if |Targets(table, input.space, input.att.value)| != |table| then Refused(InsufficientDelegation)
    else if LifetimeCode(input.exp, input.nbf, input.sessionExpiry.value, now).Some? then
      Refused(LifetimeCode(input.exp, input.nbf, input.sessionExpiry.value, now).value)
    else
      Accepted(Verified(input.owner, input.space, policy, Targets(table, input.space, input.att.value),
        (input.exp.seconds * 1000.0).Floor))
  }

  lemma {:induction false} CodeUpTo(table: seq<Resource>, space: string, att: seq<Attenuation>, k: nat)
    requires k < |att|
    requires EntriesCode(table, space, att[..k]) == None
    ensures EntriesCode(table, space, att[..k + 1]) == EntryCode(table, space, att[k])
    ensures EntryCode(table, space, att[k]).Some? ==> EntriesCode(table, space, att) == EntryCode(table, space, att[k])
    ensures EntryCode(table, space, att[k]).None? ==>
      Targets(table, space, att[..k + 1]) == Targets(table, space, att[..k]) + [TargetOf(table, space, att[k]).value]
    decreases k
  {
    if k == 0 {
      assert att[..1] == [att[0]];
      assert EntriesCode(table, space, [att[0]][1..]) == None;
    } else {
      assert att[..k][0] == att[0] && att[..k][1..] == att[1..][..k - 1];
      assert att[..k + 1][1..] == att[1..][..k];
      CodeUpTo(table, space, att[1..], k - 1);
    }
  }

  /** The verifier's loop over the attenuation entries, collecting the accepted resources. */
  method VerifyGrant(input: Input, policy: Policy, now: nat) returns (result: GrantResult)
    ensures result == Verify(input, policy, now)
  {
    hide AbilitiesCode, LifetimeCode, Expected;
    var table := Expected(policy);
    if input.early.Some? { return Refused(input.early.value); }
    if input.sessionExpiry.None? || input.sessionExpiry.value <= now { return Refused(SessionExpired); }
    if input.late.Some? { return Refused(input.late.value); }
    if input.att.None? { return Refused(InsufficientDelegation); }
    var att := input.att.value;
    var resources := [];
    for k := 0 to |att|
      invariant EntriesCode(table, input.space, att[..k]) == None
      invariant resources == Targets(table, input.space, att[..k])
    {
      CodeUpTo(table, input.space, att, k);
      if !(input.space + "/" <= att[k].uri) { return Refused(ForeignSpaceDelegation); }
      var target := TargetOf(table, input.space, att[k]);
      if target.None? { return Refused(OverbroadDelegation); }
      var code := AbilitiesCode(att[k].abilities, target.value.actions);
      if code.Some? { return Refused(code.value); }
      resources := resources + [target.value];
    }
    assert att[..|att|] == att;
    if |resources| != |table| { return Refused(InsufficientDelegation); }
    var lifetime := LifetimeCode(input.exp, input.nbf, input.sessionExpiry.value, now);
    if lifetime.Some? { return Refused(lifetime.value); }
    LifetimeIff(input.exp, input.nbf, input.sessionExpiry.value, now);
    result := Accepted(Verified(input.owner, input.space, policy, resources, (input.exp.seconds * 1000.0).Floor));
  }

  // ---- What acceptance means ----------------------------------------------------------------------

  /** Nothing but at most one object without members. */
  ghost predicate WithoutConditions(c: Clauses) {
    c.List? && |c.items| < 2 && forall clause :: clause in c.items ==> clause.Conditions? && clause.count == 0
  }

  /** Exactly the listed actions, each without conditions. */
  ghost predicate ExactlyGrants(abilities: Abilities, actions: seq<string>) {
    && abilities.Record?
    && (forall g :: g in abilities.grants ==> g.action in actions && WithoutConditions(g.clauses))
    && forall a :: a in actions ==> exists g :: g in abilities.grants && g.action == a
  }

  /** The entry is the URI of the resource in the owner's space, with exactly its actions. */
  ghost predicate Grants(e: Attenuation, space: string, r: Resource) {
    e.uri == Uri(space, r) && ExactlyGrants(e.abilities, r.actions)
  }

  /** The attenuation and the policy's table are in one-to-one correspondence: every entry is the URI of a
      listed resource in the owner's space with exactly its actions, and every listed resource has one. */
  ghost predicate Matches(att: seq<Attenuation>, space: string, table: seq<Resource>) {
    && (forall e :: e in att ==> exists r :: r in table && Grants(e, space, r))
    && (forall r :: r in table ==> exists e :: e in att && Grants(e, space, r))
  }

  /** The lifetime window: more than a minute ahead, within the session and thirty days plus five minutes. */
  ghost predicate LifetimeOk(exp: Numeric, nbf: Numeric, sessionExpiry: int, now: nat) {
    && exp.Number? && (now + 60000) as real < exp.seconds * 1000.0
    && exp.seconds * 1000.0 <= sessionExpiry as real && exp.seconds * 1000.0 <= (now + 2592300000) as real
    && nbf != NotANumber && (nbf.Number? ==> nbf.seconds * 1000.0 <= (now + 60000) as real)
  }

  lemma LifetimeIff(exp: Numeric, nbf: Numeric, sessionExpiry: int, now: nat)
    ensures LifetimeCode(exp, nbf, sessionExpiry, now).None? <==> LifetimeOk(exp, nbf, sessionExpiry, now)
  {}

  function Actions(grants: seq<Grant>): (r: seq<string>)
    ensures |r| == |grants| && forall i :: 0 <= i < |r| ==> r[i] == grants[i].action
  {
    seq(|grants|, i requires 0 <= i < |grants| => grants[i].action)
  }

  lemma AbilitiesIff(abilities: Abilities, actions: seq<string>)
    requires abilities.Record? ==> DistinctActions(abilities.grants)
    requires Distinct(actions)
    ensures AbilitiesCode(abilities, actions).None? <==> ExactlyGrants(abilities, actions)
  {
    if AbilitiesCode(abilities, actions).None? { PassingGrants(abilities, actions); }
    if ExactlyGrants(abilities, actions) { GrantsPass(abilities, actions); }
  }

  lemma PassingGrants(abilities: Abilities, actions: seq<string>)
    requires AbilitiesCode(abilities, actions).None? && DistinctActions(abilities.grants)
    ensures ExactlyGrants(abilities, actions)
  {
    var names := Actions(abilities.grants);
    DistinctFillsList(names, actions);
    forall a | a in actions ensures exists g :: g in abilities.grants && g.action == a {
      var i :| 0 <= i < |names| && names[i] == a;
      assert abilities.grants[i].action == a;
    }
  }

  lemma GrantsPass(abilities: Abilities, actions: seq<string>)
    requires ExactlyGrants(abilities, actions) && DistinctActions(abilities.grants) && Distinct(actions)
    ensures AbilitiesCode(abilities, actions).None?
  {
    var names := Actions(abilities.grants);
    forall i | 0 <= i < |names| ensures names[i] in actions { assert abilities.grants[i] in abilities.grants; }
    forall a | a in actions ensures a in names {
      var g :| g in abilities.grants && g.action == a;
      var i :| 0 <= i < |abilities.grants| && abilities.grants[i] == g;
      assert names[i] == a;
    }
    SizeOfDistinct(names);
    SizeOfDistinct(actions);
    assert SetOf(names) == SetOf(actions);
  }

  lemma {:induction false} TargetIs(table: seq<Resource>, suffix: string)
    ensures Target(table, suffix).Some? ==>
      Target(table, suffix).value in table && Suffix(Target(table, suffix).value) == suffix
    ensures Target(table, suffix).None? ==> forall r :: r in table ==> Suffix(r) != suffix
  {
    if table != [] {
      TargetIs(table[1..], suffix);
      forall r | r in table && Target(table, suffix).None? ensures Suffix(r) != suffix {
        assert r == table[0] || r in table[1..];
      }
    }
  }

  /** An entry passes exactly when it names a listed resource with exactly its abilities. */
  lemma EntryIff(table: seq<Resource>, space: string, e: Attenuation)
    requires PolicyTable(table) && (e.abilities.Record? ==> DistinctActions(e.abilities.grants))
    ensures EntryCode(table, space, e).None? <==> exists r :: r in table && Grants(e, space, r)
    ensures EntryCode(table, space, e).None? ==>
      TargetOf(table, space, e).Some? && TargetOf(table, space, e).value in table
        && Grants(e, space, TargetOf(table, space, e).value)
  {
    hide AbilitiesCode, ExactlyGrants, Suffix;
    if space + "/" <= e.uri {
      var suffix := e.uri[|space| + 1..];
      assert e.uri == space + "/" + suffix;
      TargetIs(table, suffix);
      match Target(table, suffix) {
        case Some(r) => AbilitiesIff(e.abilities, r.actions);
        case None =>
      }
    }
    forall r | r in table && Grants(e, space, r) ensures EntryCode(table, space, e).None? {
      assert space + "/" <= e.uri && e.uri[|space| + 1..] == Suffix(r);
      OnlyTarget(table, r);
      AbilitiesIff(e.abilities, r.actions);
    }
  }

  lemma OnlyTarget(table: seq<Resource>, r: Resource)
    requires PolicyTable(table) && r in table
    ensures Target(table, Suffix(r)) == Some(r)
  {
    TargetIs(table, Suffix(r));
  }

  lemma PassingHasTarget(table: seq<Resource>, space: string, e: Attenuation)
    requires EntryCode(table, space, e).None?
    ensures TargetOf(table, space, e).Some?
  {}

  lemma {:induction false} EntriesIff(table: seq<Resource>, space: string, att: seq<Attenuation>)
    ensures EntriesCode(table, space, att).None? <==> forall e :: e in att ==> EntryCode(table, space, e).None?
    ensures EntriesCode(table, space, att).None? ==>
      |Targets(table, space, att)| == |att|
        && forall i :: 0 <= i < |att| ==> Some(Targets(table, space, att)[i]) == TargetOf(table, space, att[i])
  {
    hide EntryCode;
    if att != [] {
      EntriesIff(table, space, att[1..]);
      assert forall e :: e in att <==> e == att[0] || e in att[1..];
      if EntriesCode(table, space, att).None? {
        forall i | 0 <= i < |att| ensures Some(Targets(table, space, att)[i]) == TargetOf(table, space, att[i]) {
          if i == 0 { PassingHasTarget(table, space, att[0]); } else { assert att[1..][i - 1] == att[i]; }
        }
      }
    }
  }

  function Uris(space: string, table: seq<Resource>): (r: seq<string>)
    ensures |r| == |table| && forall i :: 0 <= i < |r| ==> r[i] == Uri(space, table[i])
  {
    seq(|table|, i requires 0 <= i < |table| => Uri(space, table[i]))
  }

  function EntryUris(att: seq<Attenuation>): (r: seq<string>)
    ensures |r| == |att| && forall i :: 0 <= i < |r| ==> r[i] == att[i].uri
  {
    seq(|att|, i requires 0 <= i < |att| => att[i].uri)
  }

  /** In a policy's table a URI names one resource. */
  lemma UriNamesOne(table: seq<Resource>, space: string, a: Resource, b: Resource)
    requires PolicyTable(table) && a in table && b in table && Uri(space, a) == Uri(space, b)
    ensures a == b
  {
    hide Suffix;
    assert Uri(space, a)[|space| + 1..] == Suffix(a) && Uri(space, b)[|space| + 1..] == Suffix(b);
    OnlyTarget(table, a);
    OnlyTarget(table, b);
  }

  lemma DistinctTableUris(space: string, table: seq<Resource>)
    requires PolicyTable(table)
    ensures Distinct(Uris(space, table))
  {
    hide Suffix;
    forall i, j | 0 <= i < j < |table| ensures Uri(space, table[i]) != Uri(space, table[j]) {
      assert Uri(space, table[i])[|space| + 1..] == Suffix(table[i])
        && Uri(space, table[j])[|space| + 1..] == Suffix(table[j]);
    }
  }

  lemma UriIsListed(space: string, table: seq<Resource>, r: Resource)
    requires r in table
    ensures Uri(space, r) in Uris(space, table)
  {
    var i :| 0 <= i < |table| && table[i] == r;
    assert Uris(space, table)[i] == Uri(space, r);
  }

  lemma EntryIsListed(att: seq<Attenuation>, e: Attenuation)
    requires e in att
    ensures e.uri in EntryUris(att)
  {
    var k :| 0 <= k < |att| && att[k] == e;
    assert EntryUris(att)[k] == e.uri;
  }

  /** If every entry passes and there are as many as listed resources, every listed resource has one. */
  lemma EntriesCoverTable(table: seq<Resource>, space: string, att: seq<Attenuation>)
    requires PolicyTable(table) && IsJson(att) && EntriesCode(table, space, att).None? && |att| == |table|
    ensures Matches(att, space, table)
  {
    hide EntryCode, ExactlyGrants, Uri, Suffix, EntriesCode, TargetOf, PolicyTable, DistinctActions;
    EntriesIff(table, space, att);
    forall e | e in att ensures exists r :: r in table && Grants(e, space, r) { EntryIff(table, space, e); }
    var uris, names := Uris(space, table), EntryUris(att);
    forall x | x in names ensures x in uris {
      var k :| 0 <= k < |names| && names[k] == x;
      assert att[k] in att;
      var r :| r in table && Grants(att[k], space, r);
      UriIsListed(space, table, r);
    }
    DistinctFillsList(names, uris);
    forall r | r in table ensures exists e :: e in att && Grants(e, space, r) {
      UriIsListed(space, table, r);
      var k :| 0 <= k < |names| && names[k] == Uri(space, r);
      assert att[k] in att;
      var q :| q in table && Grants(att[k], space, q);
      UriNamesOne(table, space, q, r);
    }
  }

  lemma MatchesPasses(table: seq<Resource>, space: string, att: seq<Attenuation>)
    requires PolicyTable(table) && IsJson(att) && Matches(att, space, table)
    ensures EntriesCode(table, space, att).None? && |att| == |table|
  {
    hide EntryCode, ExactlyGrants, Uri, Suffix, EntriesCode, TargetOf, PolicyTable, DistinctActions;
    EntriesIff(table, space, att);
    forall e | e in att ensures EntryCode(table, space, e).None? { EntryIff(table, space, e); }
    var uris, names := Uris(space, table), EntryUris(att);
    DistinctTableUris(space, table);
    SizeOfDistinct(names);
    SizeOfDistinct(uris);
    forall x | x in names ensures x in uris {
      var k :| 0 <= k < |names| && names[k] == x;
      assert att[k] in att;
      var r :| r in table && Grants(att[k], space, r);
      UriIsListed(space, table, r);
    }
    forall x | x in uris ensures x in names {
      var i :| 0 <= i < |uris| && uris[i] == x;
      assert table[i] in table;
      var e :| e in att && Grants(e, space, table[i]);
      EntryIsListed(att, e);
    }
    assert SetOf(names) == SetOf(uris);
  }

  lemma PoliciesAreTables(policy: Policy)
    ensures PolicyTable(Expected(policy)) && |Expected(policy)| == 2
  {
    var kv := ["tinycloud.kv/get", "tinycloud.kv/put", "tinycloud.kv/del", "tinycloud.kv/list"];
    assert kv[0][13] == 'g' && kv[1][13] == 'p' && kv[2][13] == 'd' && kv[3][13] == 'l';
    assert |"tinycloud.sql/read"| == 18 && |"tinycloud.sql/write"| == 19;
    var t := Expected(policy);
    assert |Suffix(t[0])| != |Suffix(t[1])|;
  }

  /** The verifier accepts a grant exactly when its earlier checks pass, the attenuation matches the
      policy's table in the owner's space and the lifetime lies in the window. */
  lemma AcceptsIff(input: Input, policy: Policy, now: nat)
    requires input.att.Some? ==> IsJson(input.att.value)
    ensures Verify(input, policy, now).Accepted? <==>
      (&& input.early.None? && input.late.None? && input.sessionExpiry.Some? && input.sessionExpiry.value > now
       && input.att.Some? && Matches(input.att.value, input.space, Expected(policy))
       && LifetimeOk(input.exp, input.nbf, input.sessionExpiry.value, now))
  {
    hide Expected, EntriesCode, Matches, LifetimeCode, LifetimeOk, IsJson, Targets;
    PoliciesAreTables(policy);
    var table := Expected(policy);
    if input.att.Some? {
      var att := input.att.value;
      EntriesIff(table, input.space, att);
      if EntriesCode(table, input.space, att).None? && |att| == |table| { EntriesCoverTable(table, input.space, att); }
      if Matches(att, input.space, table) { MatchesPasses(table, input.space, att); }
    }
    if input.sessionExpiry.Some? { LifetimeIff(input.exp, input.nbf, input.sessionExpiry.value, now); }
  }

  ghost predicate EntryGrants(e: Attenuation, uri: string, actions: seq<string>) {
    e.uri == uri && ExactlyGrants(e.abilities, actions)
  }

  /** Every entry is one of these two, and both are there. */
  ghost predicate BothEntries(att: seq<Attenuation>, uri: string, actions: seq<string>, uri': string,
      actions': seq<string>)
  {
    && (forall e :: e in att ==> EntryGrants(e, uri, actions) || EntryGrants(e, uri', actions'))
    && (exists e :: e in att && EntryGrants(e, uri, actions)) && exists e :: e in att && EntryGrants(e, uri', actions')
  }

  lemma TwoEntries(att: seq<Attenuation>, space: string, table: seq<Resource>, r: Resource, q: Resource)
    requires table == [r, q]
    ensures Matches(att, space, table) <==> BothEntries(att, Uri(space, r), r.actions, Uri(space, q), q.actions)
  {
    hide Matches, BothEntries;
    if Matches(att, space, table) { MatchesBoth(att, space, table, r, q); }
    if BothEntries(att, Uri(space, r), r.actions, Uri(space, q), q.actions) { BothMatch(att, space, table, r, q); }
  }

  lemma MatchesBoth(att: seq<Attenuation>, space: string, table: seq<Resource>, r: Resource, q: Resource)
    requires table == [r, q] && Matches(att, space, table)
    ensures BothEntries(att, Uri(space, r), r.actions, Uri(space, q), q.actions)
  {
    hide Uri, ExactlyGrants, Suffix, Matches;
    assert table[0] == r && table[1] == q;
    assert r in table && q in table;
    var e := EntryFor(att, space, table, r);
    var f := EntryFor(att, space, table, q);
    assert EntryGrants(e, Uri(space, r), r.actions) && EntryGrants(f, Uri(space, q), q.actions);
    forall e | e in att
      ensures EntryGrants(e, Uri(space, r), r.actions) || EntryGrants(e, Uri(space, q), q.actions)
    {
      var x := ResourceFor(att, space, table, e);
    }
  }

  lemma EntryFor(att: seq<Attenuation>, space: string, table: seq<Resource>, r: Resource) returns (e: Attenuation)
    requires Matches(att, space, table) && r in table
    ensures e in att && Grants(e, space, r)
  {
    hide Grants;
    e :| e in att && Grants(e, space, r);
  }

  lemma ResourceFor(att: seq<Attenuation>, space: string, table: seq<Resource>, e: Attenuation) returns (r: Resource)
    requires Matches(att, space, table) && e in att
    ensures r in table && Grants(e, space, r)
  {
    hide Grants;
    r :| r in table && Grants(e, space, r);
  }

  lemma BothMatch(att: seq<Attenuation>, space: string, table: seq<Resource>, r: Resource, q: Resource)
    requires table == [r, q] && BothEntries(att, Uri(space, r), r.actions, Uri(space, q), q.actions)
    ensures Matches(att, space, table)
  {
    hide Uri, ExactlyGrants, Suffix;
    assert table[0] == r && table[1] == q;
    assert r in table && q in table && forall x :: x in table ==> x == r || x == q;
    forall e | e in att ensures exists x :: x in table && Grants(e, space, x) {
      assert Grants(e, space, r) || Grants(e, space, q);
    }
    forall x | x in table ensures exists e :: e in att && Grants(e, space, x) {
      var e :| e in att && EntryGrants(e, Uri(space, x), x.actions);
      assert Grants(e, space, x);
    }
  }

  lemma UriIs(space: string, service: string, path: string, actions: seq<string>)
    ensures Uri(space, Resource(service, path, actions)) == space + "/" + service + "/" + path
  {
    assert space + "/" + (service + "/" + path) == space + "/" + service + "/" + path;
  }

  /** The policies' tables, written out. */
  lemma TablesAre()
    ensures Expected(TranscriptWriter) == [
      Resource("sql", "xyz.tinycloud.tinychat" + "/connectors", ["tinycloud.sql/read", "tinycloud.sql/write"]),
      Resource("kv", "xyz.tinycloud.tinychat" + "/connectors/tinycloud-transcriber/",
        ["tinycloud.kv/get", "tinycloud.kv/put"])]
    ensures Expected(ExoSync) == [
      Resource("kv", "xyz.tinycloud.tinychat" + "/exo/v1/requests/",
        ["tinycloud.kv/get", "tinycloud.kv/list", "tinycloud.kv/del"]),
      Resource("kv", "xyz.tinycloud.tinychat" + "/exo/v1/jobs/",
        ["tinycloud.kv/get", "tinycloud.kv/put", "tinycloud.kv/del"])]
  {}

  /** What a grant must carry, written out, under each policy. */
  lemma MatchesIff(att: seq<Attenuation>, space: string)
    ensures Matches(att, space, Expected(TranscriptWriter)) <==> BothEntries(att,
        space + "/" + "sql" + "/" + ("xyz.tinycloud.tinychat" + "/connectors"),
        ["tinycloud.sql/read", "tinycloud.sql/write"],
        space + "/" + "kv" + "/" + ("xyz.tinycloud.tinychat" + "/connectors/tinycloud-transcriber/"),
        ["tinycloud.kv/get", "tinycloud.kv/put"])
    ensures Matches(att, space, Expected(ExoSync)) <==> BothEntries(att,
        space + "/" + "kv" + "/" + ("xyz.tinycloud.tinychat" + "/exo/v1/requests/"),
        ["tinycloud.kv/get", "tinycloud.kv/list", "tinycloud.kv/del"],
        space + "/" + "kv" + "/" + ("xyz.tinycloud.tinychat" + "/exo/v1/jobs/"),
        ["tinycloud.kv/get", "tinycloud.kv/put", "tinycloud.kv/del"])
  {
    hide Matches, BothEntries, Uri, Expected;
    TablesAre();
    var writer, exo := Expected(TranscriptWriter), Expected(ExoSync);
    TwoEntries(att, space, writer, writer[0], writer[1]);
    TwoEntries(att, space, exo, exo[0], exo[1]);
    UriIs(space, "sql", writer[0].path, writer[0].actions);
    UriIs(space, "kv", writer[1].path, writer[1].actions);
    UriIs(space, "kv", exo[0].path, exo[0].actions);
    UriIs(space, "kv", exo[1].path, exo[1].actions);
  }

  /** An entry that grants exactly a resource, each action without conditions. */
  function ExactEntry(space: string, r: Resource): Attenuation {
    Attenuation(Uri(space, r),
      Record(seq(|r.actions|, i requires 0 <= i < |r.actions| => Grant(r.actions[i], List([])))))
  }

  function ExactEntries(space: string, table: seq<Resource>): (att: seq<Attenuation>)
    ensures |att| == |table| && forall i :: 0 <= i < |att| ==> att[i] == ExactEntry(space, table[i])
  {
    seq(|table|, i requires 0 <= i < |table| => ExactEntry(space, table[i]))
  }

  lemma ExactEntryGrants(space: string, r: Resource)
    requires Distinct(r.actions)
    ensures Grants(ExactEntry(space, r), space, r) && DistinctActions(ExactEntry(space, r).abilities.grants)
  {
    var grants := ExactEntry(space, r).abilities.grants;
    forall a | a in r.actions ensures exists g :: g in grants && g.action == a {
      var i :| 0 <= i < |r.actions| && r.actions[i] == a;
      assert grants[i] in grants;
    }
  }

  lemma ExactEntriesMatch(space: string, table: seq<Resource>)
    requires PolicyTable(table)
    ensures IsJson(ExactEntries(space, table)) && Matches(ExactEntries(space, table), space, table)
  {
    hide Grants, Uri, Suffix, DistinctActions, ExactEntry;
    var att := ExactEntries(space, table);
    DistinctTableUris(space, table);
    assert DistinctUris(att) by { ExactUris(space, table); }
    forall r | r in table ensures exists e :: e in att && Grants(e, space, r) {
      var i :| 0 <= i < |table| && table[i] == r;
      ExactEntryGrants(space, r);
      assert att[i] in att;
    }
    forall e | e in att
      ensures (exists r :: r in table && Grants(e, space, r))
        && (e.abilities.Record? ==> DistinctActions(e.abilities.grants))
    {
      var i :| 0 <= i < |att| && att[i] == e;
      assert table[i] in table;
      ExactEntryGrants(space, table[i]);
    }
  }

  lemma ExactUris(space: string, table: seq<Resource>)
    requires Distinct(Uris(space, table))
    ensures DistinctUris(ExactEntries(space, table))
  {
    hide Uri;
    forall i, j | 0 <= i < j < |table| ensures ExactEntry(space, table[i]).uri != ExactEntry(space, table[j]).uri {
      assert Uris(space, table)[i] != Uris(space, table)[j];
    }
  }

  /** A grant of a policy's resources with exactly their actions, whose earlier checks pass. */
  function ExactGrant(policy: Policy, owner: string, space: string, session: int, seconds: real): Input {
    Input(None, owner, space, Some(session), None, Some(ExactEntries(space, Expected(policy))), Number(seconds), Absent)
  }

  /** Such a grant is accepted exactly while its lifetime is in the window. */
  lemma ExactGrantIsAccepted(policy: Policy, owner: string, space: string, session: int, seconds: real, now: nat)
    ensures var input := ExactGrant(policy, owner, space, session, seconds);
            && (Verify(input, policy, now).Accepted? <==>
              session > now && LifetimeOk(input.exp, input.nbf, session, now))
            && (session > now && seconds * 1000.0 <= (now + 60000) as real ==>
              Verify(input, policy, now) == Refused(Expired))
  {
    hide Expected, Matches, IsJson, Targets;
    PoliciesAreTables(policy);
    ExactEntriesMatch(space, Expected(policy));
    AcceptsIff(ExactGrant(policy, owner, space, session, seconds), policy, now);
    MatchesPasses(Expected(policy), space, ExactEntries(space, Expected(policy)));
    EntriesIff(Expected(policy), space, ExactEntries(space, Expected(policy)));
  }

  ghost predicate SameEntry(e: Attenuation, f: Attenuation) {
    && e.uri == f.uri && (e.abilities.Record? <==> f.abilities.Record?)
    && (e.abilities.Record? ==> multiset(e.abilities.grants) == multiset(f.abilities.grants))
  }

  /** Every entry of one attenuation has the same entry, up to the order of its abilities, in the other. */
  ghost predicate Included(att: seq<Attenuation>, other: seq<Attenuation>) {
    forall e :: e in att ==> exists f :: f in other && SameEntry(e, f)
  }

  lemma Partner(att: seq<Attenuation>, other: seq<Attenuation>, e: Attenuation) returns (f: Attenuation)
    requires Included(att, other) && e in att
    ensures f in other && SameEntry(e, f) && SameEntry(f, e)
  {
    f :| f in other && SameEntry(e, f);
  }

  lemma SameGrants(e: Attenuation, f: Attenuation, space: string, r: Resource)
    requires SameEntry(e, f) && Grants(e, space, r)
    ensures Grants(f, space, r)
  {
    hide Uri, WithoutConditions;
    forall g ensures g in e.abilities.grants <==> g in f.abilities.grants {
      assert g in e.abilities.grants <==> g in multiset(e.abilities.grants);
      assert g in f.abilities.grants <==> g in multiset(f.abilities.grants);
    }
  }

  lemma SameMatches(att: seq<Attenuation>, other: seq<Attenuation>, space: string, table: seq<Resource>)
    requires Included(att, other) && Included(other, att) && Matches(att, space, table)
    ensures Matches(other, space, table)
  {
    hide SameEntry, Grants, Included;
    forall f | f in other ensures exists r :: r in table && Grants(f, space, r) {
      var e := Partner(other, att, f);
      var r :| r in table && Grants(e, space, r);
      SameGrants(e, f, space, r);
    }
    forall r | r in table ensures exists f :: f in other && Grants(f, space, r) {
      var e :| e in att && Grants(e, space, r);
      var f := Partner(att, other, e);
      SameGrants(e, f, space, r);
    }
  }

  /** Neither the order of the entries nor the order of the abilities inside one matters. */
  lemma OrderDoesNotMatter(input: Input, other: seq<Attenuation>, policy: Policy, now: nat)
    requires input.att.Some? && IsJson(input.att.value) && IsJson(other)
    requires Included(input.att.value, other) && Included(other, input.att.value)
    ensures Verify(input, policy, now).Accepted? <==> Verify(input.(att := Some(other)), policy, now).Accepted?
  {
    hide Expected, Verify, LifetimeOk, IsJson, Included, Matches;
    AcceptsIff(input, policy, now);
    AcceptsIff(input.(att := Some(other)), policy, now);
    if Matches(input.att.value, input.space, Expected(policy)) {
      SameMatches(input.att.value, other, input.space, Expected(policy));
    }
    if Matches(other, input.space, Expected(policy)) {
      SameMatches(other, input.att.value, input.space, Expected(policy));
    }
  }
}
