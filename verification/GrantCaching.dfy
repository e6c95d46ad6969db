/** The cache of verified grants of backend/src/delegation-verify.ts. `parseStoredGrant` looks the grant up,
    or awaits a verification and stores its answer afterwards, so that other parses and evictions interleave
    with a parse that is under way. */
module GrantCaching {
  import opened Optional
  import opened GrantVerify

  const CACHE_MS := 600000

  /** The cache key, which determines what is verified: the hash is injective. */
  datatype Key = Key(address: string, envelope: string, backendDid: string, host: string, policy: Policy)

  datatype Cached = Cached(verified: Verified, until: int)

  /** `signed` is what the envelope's signed parts say for a key, and `spaceOf` the space of a user; both
      are fixed functions of their arguments. */
  datatype World = World(signed: Key -> Input, spaceOf: (string, Input) -> string)

  /** What a verification that begins at a time answers. */
  function Check(w: World, key: Key, at: nat): GrantResult { Verify(w.signed(key), key.policy, at) }

  function Entry(verified: Verified, at: nat): Cached { Cached(verified, Min(verified.expiresAt, at + CACHE_MS)) }

  predicate Live(entries: map<Key, Cached>, key: Key, now: nat) { key in entries && entries[key].until > now }

  predicate OtherOwner(w: World, key: Key, v: Verified) {
    v.owner != key.address || v.space != w.spaceOf(key.address, w.signed(key))
  }

  /** A parse up to its verification: the cache after the lookup, and its answer unless it must verify. */
  function Lookup(w: World, entries: map<Key, Cached>, key: Key, now: nat): (map<Key, Cached>, Option<GrantResult>) {
    if !Live(entries, key, now) then (entries, None)
    else
      var v := entries[key].verified;
      if OtherOwner(w, key, v) then (entries - {key}, Some(Refused(WrongDelegator)))
      else if v.expiresAt > now then (entries, Some(Accepted(v)))
      else (entries - {key}, None)
  }

  /** A parse after its verification, which is the one of the time at which the parse began. */
  function Stored(w: World, entries: map<Key, Cached>, key: Key, began: nat): map<Key, Cached> {
    match Check(w, key, began)
    case Accepted(v) => entries[key := Entry(v, began)]
    case Refused(_) => entries
  }

  lemma AcceptedFields(input: Input, policy: Policy, now: nat)
    ensures Verify(input, policy, now).Accepted? ==>
      var v := Verify(input, policy, now).verified;
      && v.owner == input.owner && v.space == input.space && v.policy == policy && now < v.expiresAt
      && input.exp.Number? && v.expiresAt == (input.exp.seconds * 1000.0).Floor
  {
    hide Expected, EntriesCode, Targets;
    if Verify(input, policy, now).Accepted? { LifetimeIff(input.exp, input.nbf, input.sessionExpiry.value, now); }
  }

  /** An entry is what a verification that began at a time answered, kept for ten minutes or until expiry. */
  ghost predicate IsEntry(w: World, key: Key, c: Cached, at: nat) {
    Check(w, key, at) == Accepted(c.verified) && c == Entry(c.verified, at)
  }

  // ---- The program --------------------------------------------------------------------------------

  class GrantCache {
    const w: World
    var entries: map<Key, Cached>
    /** When the verification of each cached grant began. */
    ghost var verifiedAt: map<Key, nat>

    constructor (w: World)
      ensures Valid() && entries == map[] && this.w == w
    {
      this.w, entries, verifiedAt := w, map[], map[];
    }

    ghost predicate Valid()
      reads this
    {
      forall k :: k in entries ==> k in verifiedAt && IsEntry(w, k, entries[k], verifiedAt[k])
    }

    /** No verification lies ahead of this time, as when the clock has not gone back. */
    ghost predicate Past(now: nat)
      reads this
    {
      forall k :: k in verifiedAt ==> verifiedAt[k] <= now
    }

    /** parseStoredGrant up to its await: the answer, when a live entry gives one. */
    method Begin(key: Key, now: nat) returns (answer: Option<GrantResult>)
      requires Valid()
      modifies this
      ensures Valid() && (entries, answer) == Lookup(w, old(entries), key, now) && verifiedAt == old(verifiedAt)
      ensures answer.None? <==> !old(Live(entries, key, now))
      ensures answer.None? ==> entries == old(entries)
      ensures answer.Some? && answer.value.Accepted? ==>
        && entries == old(entries) && key in entries && answer.value.verified == entries[key].verified
        && now < answer.value.verified.expiresAt && now < verifiedAt[key] + 600000
        && Check(w, key, verifiedAt[key]) == answer.value
      ensures answer.Some? && answer.value.Refused? ==>
        && answer.value.code == WrongDelegator && entries == old(entries) - {key}
        && (w.signed(key).owner != key.address || w.signed(key).space != w.spaceOf(key.address, w.signed(key)))
    {
      hide Verify;
      if key in entries && entries[key].until > now {
        var verified := entries[key].verified;
        AcceptedFields(w.signed(key), key.policy, verifiedAt[key]);
        if verified.owner != key.address || verified.space != w.spaceOf(key.address, w.signed(key)) {
          entries := entries - {key};
          return Some(Refused(WrongDelegator));
        }
        // `until` never passes the expiry, so the code's own expiry test always succeeds here.
        assert verified.expiresAt > now;
        return Some(Accepted(verified));
      }
      return None;
    }

    /** parseStoredGrant from its await on, for a parse that began at `now`: only an accepted answer is stored. */
    method Finish(key: Key, now: nat) returns (result: GrantResult)
      requires Valid()
      modifies this
      ensures Valid() && result == Check(w, key, now) && entries == Stored(w, old(entries), key, now)
      ensures verifiedAt == if result.Accepted? then old(verifiedAt)[key := now] else old(verifiedAt)
      ensures result.Accepted? ==> now < result.verified.expiresAt && Live(entries, key, now)
      ensures result.Refused? ==> entries == old(entries)
    {
      hide Verify;
      result := Check(w, key, now);
      if result.Accepted? {
        AcceptedFields(w.signed(key), key.policy, now);
        entries := entries[key := Cached(result.verified, Min(result.verified.expiresAt, now + CACHE_MS))];
        verifiedAt := verifiedAt[key := now];
      }
    }

    /** A parse with nothing between its lookup and its end: an accepted answer is unexpired and less than ten
        minutes old. */
    method ParseStoredGrant(key: Key, now: nat) returns (result: GrantResult)
      requires Valid()
      modifies this
      ensures Valid()
      ensures result == match old(Lookup(w, entries, key, now)).1 case Some(a) => a case None => Check(w, key, now)
      ensures result.Accepted? ==>
        && now < result.verified.expiresAt
        && exists t: nat :: now < t + 600000 && (old(Past(now)) ==> t <= now) && Check(w, key, t) == result
      ensures old(Past(now)) ==> Past(now)
      ensures result.Refused? ==>
        || result == Check(w, key, now)
        || (result.code == WrongDelegator && key in old(entries)
            && (w.signed(key).owner != key.address || w.signed(key).space != w.spaceOf(key.address, w.signed(key))))
      ensures key !in old(entries) ==> result == Check(w, key, now)
      ensures result.Accepted? ==> key in entries && entries[key].verified == result.verified
      ensures result.Refused? && key in entries ==>
        key in old(entries) && entries[key] == old(entries[key]) && entries[key].until <= now
      ensures forall k ::
          k != key ==> (k in entries <==> k in old(entries)) && (k in entries ==> entries[k] == old(entries[k]))
    {
      hide Check;
      var answer := Begin(key, now);
      if answer.Some? { return answer.value; }
      result := Finish(key, now);
    }

    /** A replaced or revoked grant: its entry goes, so that a parse that begins before another one stores an
        answer verifies anew. The entries of other keys stay. */
    method Evict(key: Key)
      requires Valid()
      modifies this
      ensures Valid() && entries == old(entries) - {key} && verifiedAt == old(verifiedAt)
      ensures forall now: nat :: Lookup(w, entries, key, now) == (entries, None)
      ensures forall other, now: nat ::
          other != key ==> Lookup(w, entries, other, now).1 == old(Lookup(w, entries, other, now).1)
    {
      entries := entries - {key};
    }
  }

  // ---- Parses in flight ---------------------------------------------------------------------------

  datatype Parse = Parse(key: Key, began: nat, done: bool)

  /** The cache, which parse stored each entry last, and all parses so far. */
  datatype System = System(entries: map<Key, Cached>, storedBy: map<Key, nat>, parses: map<nat, Parse>)

  const START: System := System(map[], map[], map[])

  datatype Act =
    | Begin(id: nat, key: Key, now: nat) // a parse begins, and ends at once when the cache answers it
    | Finish(id: nat)                    // the verification of a parse under way answers
    | Evict(key: Key)

  predicate UnderWay(s: System, id: nat) { id in s.parses && !s.parses[id].done }

  /** The end of this parse stores an entry. */
  predicate WouldStore(w: World, s: System, id: nat, key: Key) {
    UnderWay(s, id) && s.parses[id].key == key && Check(w, key, s.parses[id].began).Accepted?
  }

  function Next(w: World, s: System, act: Act): System {
    match act
    case Begin(id, key, now) =>
      if id in s.parses then s
      else
        var (entries, answer) := Lookup(w, s.entries, key, now);
        System(entries, s.storedBy, s.parses[id := Parse(key, now, answer.Some?)])
    case Finish(id) =>
      if !UnderWay(s, id) then s
      else
        var p := s.parses[id];
        var storedBy := if WouldStore(w, s, id, p.key) then s.storedBy[p.key := id] else s.storedBy;
        System(Stored(w, s.entries, p.key, p.began), storedBy, s.parses[id := p.(done := true)])
    case Evict(key) => s.(entries := s.entries - {key})
  }

  function Exec(w: World, s: System, acts: seq<Act>): System {
    if acts == [] then s else Next(w, Exec(w, s, acts[..|acts| - 1]), acts[|acts| - 1])
  }

  /** What an act answers to a parse. */
  function Answer(w: World, s: System, act: Act): Option<GrantResult> {
    match act
    case Begin(id, key, now) => if id in s.parses then None else Lookup(w, s.entries, key, now).1
    case Finish(id) => if UnderWay(s, id) then Some(Check(w, s.parses[id].key, s.parses[id].began)) else None
    case Evict(_) => None
  }

  // ---- Every answer is recent ---------------------------------------------------------------------

  ghost predicate EntryOk(w: World, s: System, key: Key) {
    && key in s.entries && key in s.storedBy && s.storedBy[key] in s.parses
    && s.parses[s.storedBy[key]].key == key && s.parses[s.storedBy[key]].done
    && IsEntry(w, key, s.entries[key], s.parses[s.storedBy[key]].began)
  }

  /** Every entry was stored by a parse of its key, as the verification that this parse began answered. */
  ghost predicate Inv(w: World, s: System) { forall key :: key in s.entries ==> EntryOk(w, s, key) }

  lemma NextKeeps(w: World, s: System, act: Act)
    requires Inv(w, s)
    ensures Inv(w, Next(w, s, act))
  {
    hide Verify, Check;
    var t := Next(w, s, act);
    forall key | key in t.entries ensures EntryOk(w, t, key) {
      if key in s.entries { assert EntryOk(w, s, key); }
    }
  }

  lemma {:induction false} Reachable(w: World, s: System, acts: seq<Act>)
    requires Inv(w, s)
    ensures Inv(w, Exec(w, s, acts))
  {
    if acts != [] {
      Reachable(w, s, acts[..|acts| - 1]);
      hide Inv;
      NextKeeps(w, Exec(w, s, acts[..|acts| - 1]), acts[|acts| - 1]);
    }
  }

  /** The parse that an answer goes to: its key and the time at which it began. */
  function Asker(s: System, act: Act): (Key, nat)
    requires act.Begin? || (act.Finish? && act.id in s.parses)
  {
    if act.Begin? then (act.key, act.now) else (s.parses[act.id].key, s.parses[act.id].began)
  }

  ghost predicate NoneAfter(s: System, now: nat) { forall id :: id in s.parses ==> s.parses[id].began <= now }

  /** Whatever parses and evictions interleave: an accepted answer was unexpired when its parse began, and is
      what a verification of the same key answered that some parse, perhaps this one, began less than ten minutes
      before, and not later as long as the clock goes forward. */
  lemma AnswersAreRecent(w: World, acts: seq<Act>, act: Act)
    requires var a := Answer(w, Exec(w, START, acts), act); a.Some? && a.value.Accepted?
    ensures var s := Exec(w, START, acts);
            var (key, now) := Asker(s, act);
            var answer := Answer(w, s, act).value;
            && now < answer.verified.expiresAt
            && exists id :: id in Next(w, s, act).parses
                 && var p := Next(w, s, act).parses[id];
                    && p.key == key && now < p.began + 600000 && Check(w, key, p.began) == answer
                    && (NoneAfter(s, now) ==> p.began <= now)
  {
    hide Verify;
    Reachable(w, START, acts);
    var s := Exec(w, START, acts);
    hide Exec;
    var (key, now) := Asker(s, act);
    var id := if act.Begin? then s.storedBy[key] else act.id;
    if act.Begin? { assert EntryOk(w, s, key); }
    AcceptedFields(w.signed(key), key.policy, s.parses[id].began);
    assert id in Next(w, s, act).parses;
  }

  /** An accepted verification serves every parse of its key that begins within ten minutes of its own beginning
      and before its expiry, to its owner; then the key is verified anew. */
  lemma StoredAnswerServes(w: World, s: System, id: nat, now: nat)
    requires UnderWay(s, id) && Check(w, s.parses[id].key, s.parses[id].began).Accepted?
    ensures var Parse(key, began, _) := s.parses[id];
            var t := Next(w, s, Finish(id));
            var v := Check(w, key, began).verified;
            var owned := v.owner == key.address && v.space == w.spaceOf(key.address, w.signed(key));
            Lookup(w, t.entries, key, now) ==
              if now >= began + 600000 || now >= v.expiresAt then (t.entries, None)
              else if owned then (t.entries, Some(Accepted(v)))
              else (t.entries - {key}, Some(Refused(WrongDelegator)))
    ensures forall other :: other != s.parses[id].key ==>
      (other in Next(w, s, Finish(id)).entries <==> other in s.entries)
    ensures Answer(w, s, Finish(id)) == Some(Check(w, s.parses[id].key, s.parses[id].began))
  {
    hide Verify;
    var p := s.parses[id];
    assert p.key in Next(w, s, Finish(id)).entries;
  }

  /** A refused verification leaves the cache alone, and a parse ends only once. */
  lemma ParseEndsOnce(w: World, s: System, id: nat)
    ensures UnderWay(s, id) && Check(w, s.parses[id].key, s.parses[id].began).Refused? ==>
      Next(w, s, Finish(id)).entries == s.entries
    ensures Next(w, Next(w, s, Finish(id)), Finish(id)) == Next(w, s, Finish(id))
    ensures id in s.parses && s.parses[id].done ==> Next(w, s, Finish(id)) == s && Answer(w, s, Finish(id)).None?
  {
    hide Verify;
  }

  /** A parse that no live entry answers begins a verification, and one that is answered begins none. */
  lemma ParseBegins(w: World, s: System, id: nat, key: Key, now: nat)
    requires id !in s.parses
    ensures var t := Next(w, s, Begin(id, key, now));
            && id in t.parses && t.parses[id].key == key && t.parses[id].began == now
            && (UnderWay(t, id) <==> Answer(w, s, Begin(id, key, now)).None?)
            && forall other :: other != id ==> (UnderWay(t, other) <==> UnderWay(s, other))
  {
    hide Verify;
  }

  // ---- When an eviction lasts ---------------------------------------------------------------------

  /** The i-th act of a run stores an entry for the key. */
  predicate StoresAt(w: World, s: System, acts: seq<Act>, key: Key, i: nat) {
    i < |acts| && acts[i].Finish? && WouldStore(w, Exec(w, s, acts[..i]), acts[i].id, key)
  }

  predicate LastStore(w: World, s: System, acts: seq<Act>, key: Key, i: nat) {
    StoresAt(w, s, acts, key, i) && forall j: nat :: i < j < |acts| ==> !StoresAt(w, s, acts, key, j)
  }

  /** Acts among which no parse of the key begins and the key is not evicted. */
  predicate Untouched(acts: seq<Act>, key: Key) {
    forall act :: act in acts ==> act != Evict(key) && !(act.Begin? && act.key == key)
  }

  /** The parses of a key as they were, except that more of them may be done. */
  ghost predicate OnlyOldParses(s: System, t: System, key: Key) {
    forall id :: id in t.parses && t.parses[id].key == key ==>
      id in s.parses && s.parses[id].key == key && s.parses[id].began == t.parses[id].began
        && (!t.parses[id].done ==> !s.parses[id].done)
  }

  /** The parse that an entry comes from: it was under way before the run. */
  ghost predicate ComesFrom(w: World, s: System, t: System, key: Key, id: nat) {
    && key in t.entries && key in t.storedBy && t.storedBy[key] == id && WouldStore(w, s, id, key)
    && t.entries[key] == Entry(Check(w, key, s.parses[id].began).verified, s.parses[id].began)
  }

  lemma StoresBefore(w: World, s: System, acts: seq<Act>, act: Act, key: Key, i: nat)
    ensures i < |acts| ==> (StoresAt(w, s, acts + [act], key, i) <==> StoresAt(w, s, acts, key, i))
    ensures StoresAt(w, s, acts + [act], key, |acts|) <==> act.Finish? && WouldStore(w, Exec(w, s, acts), act.id, key)
  {
    hide Exec, WouldStore;
    assert (acts + [act])[..|acts|] == acts;
    if i < |acts| { assert (acts + [act])[..i] == acts[..i]; }
  }

  lemma LastStoreStep(w: World, s: System, acts: seq<Act>, act: Act, key: Key, i: nat)
    ensures if act.Finish? && WouldStore(w, Exec(w, s, acts), act.id, key)
            then LastStore(w, s, acts + [act], key, i) <==> i == |acts|
            else LastStore(w, s, acts + [act], key, i) <==> LastStore(w, s, acts, key, i)
  {
    hide StoresAt, Exec, WouldStore;
    forall j: nat
      ensures j < |acts| ==> (StoresAt(w, s, acts + [act], key, j) <==> StoresAt(w, s, acts, key, j))
      ensures StoresAt(w, s, acts + [act], key, |acts|) <==> act.Finish? && WouldStore(w, Exec(w, s, acts), act.id, key)
    {
      StoresBefore(w, s, acts, act, key, j);
    }
    StoresInside(w, s, acts, key, i);
    StoresInside(w, s, acts + [act], key, i);
  }

  lemma StoresInside(w: World, s: System, acts: seq<Act>, key: Key, i: nat)
    ensures StoresAt(w, s, acts, key, i) ==> i < |acts|
  {
  }

  /** One act that neither begins a parse of the key nor evicts it. */
  lemma UntouchedStep(w: World, s: System, t: System, act: Act, key: Key)
    requires OnlyOldParses(s, t, key) && act != Evict(key) && !(act.Begin? && act.key == key)
    ensures var u := Next(w, t, act);
            && OnlyOldParses(s, u, key)
            && (if act.Finish? && WouldStore(w, t, act.id, key) then ComesFrom(w, s, u, key, act.id)
                else
                  (key in u.entries <==> key in t.entries)
                    && forall id :: ComesFrom(w, s, t, key, id) ==> ComesFrom(w, s, u, key, id))
  {
    hide Verify;
  }

  /** The entry of the key, if any, comes from the parse that stored one last, which was under way before. */
  ghost predicate History(w: World, s: System, t: System, acts: seq<Act>, key: Key) {
    && OnlyOldParses(s, t, key)
    && (key in t.entries ==> exists i: nat :: LastStore(w, s, acts, key, i))
    && forall i: nat :: LastStore(w, s, acts, key, i) ==> ComesFrom(w, s, t, key, acts[i].id)
  }

  lemma HistoryStep(w: World, s: System, before: seq<Act>, last: Act, key: Key)
    requires var t := Exec(w, s, before);
             && History(w, s, t, before, key) && last != Evict(key) && !(last.Begin? && last.key == key)
    ensures History(w, s, Next(w, Exec(w, s, before), last), before + [last], key)
  {
    var t, acts := Exec(w, s, before), before + [last];
    var u := Next(w, t, last);
    UntouchedStep(w, s, t, last, key);
    forall i: nat
      ensures if last.Finish? && WouldStore(w, t, last.id, key) then LastStore(w, s, acts, key, i) <==> i == |before|
              else LastStore(w, s, acts, key, i) <==> LastStore(w, s, before, key, i)
      ensures LastStore(w, s, before, key, i) ==> i < |before| && acts[i] == before[i]
    {
      LastStoreStep(w, s, before, last, key, i);
    }
    hide Exec, Next, ComesFrom, OnlyOldParses, WouldStore, LastStore;
    if last.Finish? && WouldStore(w, t, last.id, key) {
      assert LastStore(w, s, acts, key, |before|);
    }
  }

  lemma NoHistory(w: World, s: System, key: Key)
    requires key !in s.entries
    ensures History(w, s, s, [], key)
  {
  }

  /** A key without an entry has one after such a run exactly if a parse stored one. */
  lemma {:induction false} EntryHistory(w: World, s: System, acts: seq<Act>, key: Key)
    requires key !in s.entries && Untouched(acts, key)
    ensures History(w, s, Exec(w, s, acts), acts, key)
    decreases |acts|
  {
    if acts == [] {
      NoHistory(w, s, key);
    } else {
      var before, last := acts[..|acts| - 1], acts[|acts| - 1];
      assert acts == before + [last] && last in acts;
      EntryHistory(w, s, before, key);
      HistoryStep(w, s, before, last, key);
    }
  }

  /** After an eviction, up to the next parse of the key: the i-th act stored the entry that this parse finds
      live. It ends a parse that was under way at the eviction. */
  ghost predicate Revived(w: World, s: System, later: seq<Act>, key: Key, now: nat, i: nat) {
    && LastStore(w, Next(w, s, Evict(key)), later, key, i) && i < |later| && later[i].Finish?
    && WouldStore(w, s, later[i].id, key)
    && var began := s.parses[later[i].id].began; Entry(Check(w, key, began).verified, began).until > now
  }

  /** An eviction lasts, that is, the next parse of the key verifies anew, exactly unless a parse of the key
      that began before the eviction ends after it with acceptance, and what the last such parse stored is
      live; then the cache answers with a verification from before the eviction. */
  lemma EvictionLastsIff(w: World, s: System, key: Key, later: seq<Act>, id: nat, now: nat)
    requires Inv(w, s) && Untouched(later, key)
    requires id !in Exec(w, Next(w, s, Evict(key)), later).parses
    ensures var t := Exec(w, Next(w, s, Evict(key)), later);
            && (Answer(w, t, Begin(id, key, now)).None? <==> forall i: nat :: !Revived(w, s, later, key, now, i))
            && (Answer(w, t, Begin(id, key, now)).None? ==>
                  Answer(w, Next(w, t, Begin(id, key, now)), Finish(id)) == Some(Check(w, key, now)))
  {
    var e := Next(w, s, Evict(key));
    EvictKeeps(w, s, key);
    EntryHistory(w, e, later, key);
    Reachable(w, e, later);
    var t := Exec(w, e, later);
    hide Exec, Untouched, LastStore, WouldStore;
    MissIff(w, t, key, id, now);
    forall i: nat | LastStore(w, e, later, key, i)
      ensures Revived(w, s, later, key, now, i) <==> Live(t.entries, key, now)
    {
      LastStoreFinishes(w, e, later, key, i);
      SameParses(w, s, key, later[i].id);
    }
  }

  lemma EvictKeeps(w: World, s: System, key: Key)
    requires Inv(w, s)
    ensures Inv(w, Next(w, s, Evict(key))) && key !in Next(w, s, Evict(key)).entries
      && Next(w, s, Evict(key)).parses == s.parses
  {
    NextKeeps(w, s, Evict(key));
  }

  lemma SameParses(w: World, s: System, key: Key, id: nat)
    ensures WouldStore(w, Next(w, s, Evict(key)), id, key) <==> WouldStore(w, s, id, key)
  {
  }

  lemma LastStoreFinishes(w: World, s: System, acts: seq<Act>, key: Key, i: nat)
    requires LastStore(w, s, acts, key, i)
    ensures i < |acts| && acts[i].Finish?
  {
  }

  /** A parse verifies exactly when there is no live entry, and its own verification is that of its beginning. */
  lemma MissIff(w: World, s: System, key: Key, id: nat, now: nat)
    requires Inv(w, s) && id !in s.parses
    ensures Answer(w, s, Begin(id, key, now)).None? <==> !Live(s.entries, key, now)
    ensures Answer(w, s, Begin(id, key, now)).None? ==>
      Answer(w, Next(w, s, Begin(id, key, now)), Finish(id)) == Some(Check(w, key, now))
  {
    hide Verify;
    if Live(s.entries, key, now) {
      assert EntryOk(w, s, key);
      AcceptedFields(w.signed(key), key.policy, s.parses[s.storedBy[key]].began);
    }
  }

  // ---- When an eviction is safe -------------------------------------------------------------------

  /** A parse of the key finds a live entry from a verification that began before the eviction. */
  ghost predicate ServesStale(w: World, s: System, key: Key, later: seq<Act>, now: nat) {
    var t := Exec(w, Next(w, s, Evict(key)), later);
    Live(t.entries, key, now) && key in t.storedBy && t.storedBy[key] in s.parses
  }

  /** Whatever happens later, no parse is answered from before the eviction, exactly when no parse of the key
      that would be accepted is under way at the eviction. */
  lemma EvictionIsSafeIff(w: World, s: System, key: Key)
    requires Inv(w, s)
    ensures (forall later, now: nat :: !ServesStale(w, s, key, later, now)) <==> forall id :: !WouldStore(w, s, id, key)
  {
    hide ServesStale, Check;
    if forall id :: !WouldStore(w, s, id, key) {
      forall later, now: nat ensures !ServesStale(w, s, key, later, now) { NeverServesStale(w, s, key, later, now); }
    }
    forall id | WouldStore(w, s, id, key) ensures exists later, now: nat :: ServesStale(w, s, key, later, now) {
      FinishServesStale(w, s, key, id);
    }
  }

  lemma FinishServesStale(w: World, s: System, key: Key, id: nat)
    requires WouldStore(w, s, id, key)
    ensures ServesStale(w, s, key, [Finish(id)], s.parses[id].began)
  {
    hide Verify;
    var e, began := Next(w, s, Evict(key)), s.parses[id].began;
    assert [Finish(id)][..0] == [];
    assert Exec(w, e, [Finish(id)]) == Next(w, e, Finish(id));
    AcceptedFields(w.signed(key), key.policy, began);
  }

  /** The entry of the key, if any, was stored by a parse that began after s. */
  ghost predicate OnlyNewer(w: World, s: System, t: System, key: Key) {
    && (key in t.entries ==> key in t.storedBy && t.storedBy[key] !in s.parses)
    && forall id :: id in s.parses ==>
         id in t.parses && t.parses[id].key == s.parses[id].key && t.parses[id].began == s.parses[id].began
           && (s.parses[id].done ==> t.parses[id].done)
  }

  lemma NewerStep(w: World, s: System, t: System, act: Act, key: Key)
    requires (forall id :: !WouldStore(w, s, id, key)) && OnlyNewer(w, s, t, key)
    ensures OnlyNewer(w, s, Next(w, t, act), key)
  {
    hide Check;
    if act.Finish? && act.id in s.parses { assert !WouldStore(w, s, act.id, key); }
  }

  lemma {:induction false} StaysNewer(w: World, s: System, t: System, key: Key, later: seq<Act>)
    requires (forall id :: !WouldStore(w, s, id, key)) && OnlyNewer(w, s, t, key)
    ensures OnlyNewer(w, s, Exec(w, t, later), key)
    decreases |later|
  {
    if later != [] {
      hide WouldStore, OnlyNewer;
      StaysNewer(w, s, t, key, later[..|later| - 1]);
      NewerStep(w, s, Exec(w, t, later[..|later| - 1]), later[|later| - 1], key);
    }
  }

  lemma NeverServesStale(w: World, s: System, key: Key, later: seq<Act>, now: nat)
    requires forall id :: !WouldStore(w, s, id, key)
    ensures !ServesStale(w, s, key, later, now)
  {
    StaysNewer(w, s, Next(w, s, Evict(key)), key, later);
  }

  // ---- An eviction that does not last -------------------------------------------------------------

  /** A world in which every key's grant is exactly its policy's and expires at second 100. */
  function SteadyWorld(): World {
    World((key: Key) => ExactGrant(key.policy, key.address, "space", 100000, 100.0),
      (address: string, input: Input) => input.space)
  }

  lemma ThreeActs(w: World, s: System, a: Act, b: Act, c: Act)
    ensures Exec(w, s, [a, b, c]) == Next(w, Next(w, Next(w, s, a), b), c)
  {
    hide Next;
    assert [a, b, c][..2] == [a, b] && [a, b][..1] == [a] && [a][..0] == [];
    assert Exec(w, s, [a]) == Next(w, s, a);
    assert Exec(w, s, [a, b]) == Next(w, Exec(w, s, [a]), b);
  }

  /** Such a run: a parse begins, its grant is evicted, and the parse ends. A parse that begins 50 seconds
      later is accepted from the cache, while a verification at that time refuses the grant. */
  lemma LateParseOutlivesEviction(key: Key)
    ensures var w := SteadyWorld();
            var s := Exec(w, START, [Begin(0, key, 0), Evict(key), Finish(0)]);
            && Answer(w, s, Begin(1, key, 50000)) == Some(Check(w, key, 0)) && Check(w, key, 0).Accepted?
            && Check(w, key, 50000) == Refused(Expired)
  {
    hide Verify, ExactEntries, Expected;
    var w := SteadyWorld();
    var input := w.signed(key);
    ExactGrantIsAccepted(key.policy, key.address, "space", 100000, 100.0, 0);
    ExactGrantIsAccepted(key.policy, key.address, "space", 100000, 100.0, 50000);
    ThreeActs(w, START, Begin(0, key, 0), Evict(key), Finish(0));
    AcceptedFields(input, key.policy, 0);
    assert Check(w, key, 0).verified.expiresAt == 100000;
  }
}
