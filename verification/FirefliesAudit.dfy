/** The two passes of scripts/agent-sync/fireflies.ts that follow a sync: the gap audit, which re-queues
    listed ids that have no row, and the duplicate pass, which deletes the runner's own duplicate rows. */
module FirefliesAudit {
  import opened Optional
  import opened Pigeonhole

  type Id = string

  // ---- Gap audit ----------------------------------------------------------------------------------

  const MAX_PENDING_IDS := 50

  /** A position in the provider's listing. */
  type Cursor = string

  const INITIAL_AUDIT_CURSOR: Cursor := ""

  datatype Listing = Listing(ids: seq<Id>, complete: bool, next: Cursor)

  datatype Audit = Audit(found: nat, requeued: nat, complete: bool, cursor: Option<Cursor>)

  function Max(a: int, b: int): int { if a > b then a else b }

  /** Every listed id is in the stored pending list. */
  ghost predicate AllSaved(ids: seq<Id>, pending: seq<Id>) { forall id :: id in ids ==> id in pending }

  /** A JavaScript Set of the stored ids, in insertion order. */
  method ToSet(ids: seq<Id>) returns (pending: seq<Id>)
    ensures Distinct(pending) && |pending| <= |ids| && forall id :: id in pending <==> id in ids
    ensures SetOf(pending) == SetOf(ids)
  {
    pending := [];
    for i := 0 to |ids|
      invariant Distinct(pending) && |pending| <= i && forall id :: id in pending <==> id in ids[..i]
    {
      assert ids[..i + 1] == ids[..i] + [ids[i]];
      if ids[i] !in pending { pending := pending + [ids[i]]; }
    }
    assert ids[..|ids|] == ids;
  }

  /** The loop that adds listed ids up to the cap; `overflow` is whether one did not fit. */
  method AddPending(prior: seq<Id>, ids: seq<Id>) returns (pending: seq<Id>, overflow: bool)
    requires Distinct(prior)
    ensures Distinct(pending) && prior <= pending && |pending| <= Max(MAX_PENDING_IDS, |prior|)
    ensures forall id :: id in pending ==> id in prior || id in ids
    ensures overflow <==> !AllSaved(ids, pending)
    ensures overflow ==> |SetOf(pending)| == |pending| >= 50
    ensures |SetOf(pending) - SetOf(prior)| == |pending| - |prior|
  {
    pending, overflow := prior, false;
    for i := 0 to |ids|
      invariant Distinct(pending) && prior <= pending && |pending| <= Max(MAX_PENDING_IDS, |prior|)
      invariant forall id :: id in pending ==> id in prior || id in ids[..i]
      invariant overflow <==> !AllSaved(ids[..i], pending)
      invariant overflow ==> |pending| >= MAX_PENDING_IDS
    {
      assert ids[..i + 1] == ids[..i] + [ids[i]];
      if ids[i] in pending { continue; }
      if |pending| < MAX_PENDING_IDS {
        assert !overflow;
        pending := pending + [ids[i]];
      } else {
        overflow := true;
      }
    }
    assert ids[..|ids|] == ids;
    Grown(prior, pending);
  }

  /** One audit. `listing` is None when the known ids or the listing cannot be read, `stored` is the pending
      list of the attempt record (None when it cannot be read), and `writes` is whether the record can be
      written. `after` is the pending list the record holds afterwards.

      The audit is complete exactly when the listing is and every listed id is in the stored list, and its
      cursor moves on exactly when every listed id is there. When the record can be read and written, every
      listed id is there afterwards unless the list has 50, and `requeued` counts the ids that were added. */
  method GapAudit(listing: Option<Listing>, stored: Option<seq<Id>>, writes: bool, cursor: Option<Cursor>)
    returns (audit: Audit, after: Option<seq<Id>>)
    ensures after.Some? <==> stored.Some?
    ensures stored.Some? ==>
      && (forall id :: id in stored.value ==> id in after.value)
      && (forall id :: id in after.value ==> id in stored.value || (listing.Some? && id in listing.value.ids))
      && |after.value| <= Max(MAX_PENDING_IDS, |stored.value|)
    ensures audit.complete <==> listing.Some? && listing.value.complete && Saved(listing.value.ids, after)
    ensures audit.cursor ==
            if listing.Some? && Saved(listing.value.ids, after)
              then (if listing.value.complete then None else Some(listing.value.next))
            else cursor
    ensures !writes ==> after == stored
    ensures stored.Some? && listing.Some? && writes ==>
      AllSaved(listing.value.ids, after.value) || |SetOf(after.value)| >= 50
    ensures audit.found == if listing.None? then 0 else |listing.value.ids|
    ensures audit.requeued == |Members(after) - Members(stored)|
  {
    hide SetOf, Distinct;
    after := stored;
    if listing.None? { return Audit(0, 0, false, cursor), after; }
    var Listing(ids, complete, next) := listing.value;
    var nextCursor := if complete then None else Some(next);
    if |ids| == 0 { return Audit(0, 0, complete, nextCursor), after; }
    if stored.None? { return Audit(|ids|, 0, false, cursor), after; }
    var prior := ToSet(stored.value);
    var pending, overflow := AddPending(prior, ids);
    var retained := if overflow then cursor else nextCursor;
    if |pending| == |prior| {
      assert pending == prior;
      return Audit(|ids|, 0, !overflow && complete, retained), after;
    }
    var added := pending[|prior|];
    assert added !in prior by { assert forall k :: 0 <= k < |prior| ==> pending[k] == prior[k]; }
    assert added in pending && !AllSaved(ids, stored.value);
    if !writes { return Audit(|ids|, 0, false, cursor), after; }
    after := Some(pending);
    audit := Audit(|ids|, |pending| - |prior|, !overflow && complete, retained);
  }

  lemma Grown(prior: seq<Id>, pending: seq<Id>)
    requires Distinct(prior) && Distinct(pending) && prior <= pending
    ensures |SetOf(pending) - SetOf(prior)| == |pending| - |prior| && |SetOf(pending)| == |pending|
  {
    SizeOfDistinct(prior);
    SizeOfDistinct(pending);
    assert SetOf(prior) <= SetOf(pending);
    assert SetOf(pending) == SetOf(prior) + (SetOf(pending) - SetOf(prior));
  }

  ghost function Members(pending: Option<seq<Id>>): set<Id> {
    if pending.Some? then SetOf(pending.value) else {}
  }

  /** Nothing was listed, or the pending list was read and holds every listed id. */
  ghost predicate Saved(ids: seq<Id>, pending: Option<seq<Id>>) {
    ids == [] || (pending.Some? && AllSaved(ids, pending.value))
  }

  /** The cursor the runner keeps after an audit. */
  function NextAuditCursor(audit: Audit): Option<Cursor> {
    if audit.complete then None else if audit.cursor.Some? then audit.cursor else Some(INITIAL_AUDIT_CURSOR)
  }

  function Begun(cursor: Option<Cursor>): Option<Cursor> { if cursor.Some? then cursor else Some(INITIAL_AUDIT_CURSOR) }

  /** The audit as a run makes it, when its budget still allows the listing. The cursor the runner keeps is
      cleared exactly when the window's end was listed and every listed id is in the stored pending list, and
      leaves its position only when every listed id is there. */
  method AuditStep(affordable: bool, listing: Option<Listing>, stored: Option<seq<Id>>, writes: bool,
      cursor: Option<Cursor>)
    returns (kept: Option<Cursor>, after: Option<seq<Id>>)
    ensures kept.None? <==> affordable && listing.Some? && listing.value.complete && Saved(listing.value.ids, after)
    ensures kept != Begun(cursor) ==> affordable && listing.Some? && Saved(listing.value.ids, after)
    ensures affordable && listing.Some? && !listing.value.complete && Saved(listing.value.ids, after) ==>
      kept == Some(listing.value.next)
    ensures !affordable || !writes ==> after == stored
  {
    if !affordable { return Begun(cursor), stored; }
    var audit;
    audit, after := GapAudit(listing, stored, writes, cursor);
    kept := NextAuditCursor(audit);
  }

  // ---- Duplicate pass -----------------------------------------------------------------------------

  /** A meeting row: whether its source is fireflies, and its id there. */
  datatype Row = Row(fireflies: bool, sourceId: Id)
  type Table = map<Id, Row>

  /** The rows that share the source id of row `id`; none when there is no such row. */
  function SiblingsOf(rows: Table, id: Id): set<Id> {
    if id !in rows then {} else set k | k in rows && rows[k].fireflies && rows[k].sourceId == rows[id].sourceId
  }

  /** DELETE ... WHERE id = ? AND source = 'fireflies' */
  function DeleteOwnRow(rows: Table, id: Id): Table {
    if id in rows && rows[id].fireflies then rows - {id} else rows
  }

  /** What another writer inserts: new row ids only. */
  function Arrive(rows: Table, arrivals: Table): Table { rows + (arrivals - rows.Keys) }

  /** One id: look, let rows arrive, then delete if there was another row with the same source id. */
  function Visit(rows: Table, id: Id, arrivals: Table): Table {
    var siblings := SiblingsOf(rows, id);
    var later := Arrive(rows, arrivals);
    if id in siblings && |siblings| > 1 then DeleteOwnRow(later, id) else later
  }

  function Pass(rows: Table, ids: seq<Id>, arrivals: seq<Table>): Table
    requires |ids| == |arrivals|
  {
    if ids == [] then rows
    else Visit(Pass(rows, ids[..|ids| - 1], arrivals[..|ids| - 1]), ids[|ids| - 1], arrivals[|ids| - 1])
  }

  predicate Deletes(rows: Table, id: Id) { id in SiblingsOf(rows, id) && |SiblingsOf(rows, id)| > 1 }

  /** The rows that arrive and were not there. */
  function Fresh(rows: Table, arrivals: Table): set<Id> { arrivals.Keys - rows.Keys }

  /** The number of rows that arrive during a pass. */
  function Arrived(rows: Table, ids: seq<Id>, arrivals: seq<Table>): nat
    requires |ids| == |arrivals|
  {
    if ids == [] then 0
    else
      var n := |ids| - 1;
      Arrived(rows, ids[..n], arrivals[..n]) + |Fresh(Pass(rows, ids[..n], arrivals[..n]), arrivals[n])|
  }

  lemma VisitSize(rows: Table, id: Id, arrivals: Table)
    ensures |Visit(rows, id, arrivals)| + (if Deletes(rows, id) then 1 else 0) == |rows| + |Fresh(rows, arrivals)|
  {
    var later := Arrive(rows, arrivals);
    assert later.Keys == rows.Keys + Fresh(rows, arrivals);
    assert |later| == |later.Keys| == |rows.Keys| + |Fresh(rows, arrivals)|;
    if Deletes(rows, id) {
      assert later[id] == rows[id];
      assert (later - {id}).Keys == later.Keys - {id};
    }
  }

  lemma PassStep(rows: Table, ids: seq<Id>, arrivals: seq<Table>, i: nat)
    requires |ids| == |arrivals| && i < |ids|
    ensures Pass(rows, ids[..i + 1], arrivals[..i + 1])
      == Visit(Pass(rows, ids[..i], arrivals[..i]), ids[i], arrivals[i])
    ensures Arrived(rows, ids[..i + 1], arrivals[..i + 1])
            == Arrived(rows, ids[..i], arrivals[..i]) + |Fresh(Pass(rows, ids[..i], arrivals[..i]), arrivals[i])|
  {
    assert ids[..i + 1][..i] == ids[..i] && arrivals[..i + 1][..i] == arrivals[..i];
  }

  /** The pass over the distinct ids of the rows this runner inserted; whatever arrives meanwhile, `removed`
      counts the deletions: rows before and arrived are the rows after and removed. */
  method RemoveOwnDuplicates(rows: Table, ids: seq<Id>, arrivals: seq<Table>) returns (after: Table, removed: nat)
    requires |ids| == |arrivals| && Distinct(ids)
    ensures after == Pass(rows, ids, arrivals)
    ensures |after| + removed == |rows| + Arrived(rows, ids, arrivals)
  {
    hide Pass, Arrive, DeleteOwnRow, SiblingsOf, Distinct, Arrived, Fresh;
    after, removed := rows, 0;
    PassNone(rows);
    for i := 0 to |ids|
      invariant after == Pass(rows, ids[..i], arrivals[..i])
      invariant |after| + removed == |rows| + Arrived(rows, ids[..i], arrivals[..i])
    {
      PassStep(rows, ids, arrivals, i);
      VisitSize(after, ids[i], arrivals[i]);
      var siblings := SiblingsOf(after, ids[i]);
      after := Arrive(after, arrivals[i]);
      if ids[i] in siblings && |siblings| > 1 {
        after := DeleteOwnRow(after, ids[i]);
        removed := removed + 1;
      }
    }
    assert ids[..|ids|] == ids && arrivals[..|ids|] == arrivals;
  }

  lemma PassNone(rows: Table)
    ensures Pass(rows, [], []) == rows && Arrived(rows, [], []) == 0
  {}

  ghost predicate HasRow(rows: Table, source: Id) {
    exists k :: k in rows && rows[k].fireflies && rows[k].sourceId == source
  }

  /** The row survives every later step. */
  ghost predicate Kept(rows: Table, after: Table, k: Id) { k in rows && k in after && after[k] == rows[k] }

  lemma Another<T>(s: set<T>, x: T) returns (y: T)
    requires x in s && |s| > 1
    ensures y in s && y != x
  {
    var rest := s - {x};
    assert |rest| == |s| - 1;
    y :| y in rest;
  }

  lemma VisitKeeps(rows: Table, id: Id, arrivals: Table)
    ensures forall k :: k in rows && k != id ==> Kept(rows, Visit(rows, id, arrivals), k)
    ensures forall source :: HasRow(rows, source) ==> HasRow(Visit(rows, id, arrivals), source)
  {
    var after := Visit(rows, id, arrivals);
    forall source | HasRow(rows, source) ensures HasRow(after, source) {
      var k :| k in rows && rows[k].fireflies && rows[k].sourceId == source;
      if k !in after {
        var other := Another(SiblingsOf(rows, id), id);
        assert other in after && after[other] == rows[other];
      } else {
        assert after[k] == rows[k];
      }
    }
  }

  /** However other writers' inserts interleave, only the runner's own rows are deleted and no source id
      loses its last row. */
  lemma {:induction false} OnlyOwnRowsGo(rows: Table, ids: seq<Id>, arrivals: seq<Table>)
    requires |ids| == |arrivals|
    ensures forall k :: k in rows && k !in ids ==> Kept(rows, Pass(rows, ids, arrivals), k)
    ensures forall source :: HasRow(rows, source) ==> HasRow(Pass(rows, ids, arrivals), source)
    decreases |ids|
  {
    if ids != [] {
      var n := |ids| - 1;
      OnlyOwnRowsGo(rows, ids[..n], arrivals[..n]);
      VisitKeeps(Pass(rows, ids[..n], arrivals[..n]), ids[n], arrivals[n]);
    }
  }

  /** Some row that is not the runner's shares the source id. */
  ghost predicate Foreign(rows: Table, ids: seq<Id>, source: Id) {
    exists k :: k in rows && k !in ids && rows[k].fireflies && rows[k].sourceId == source
  }

  function OwnRows(rows: Table, ids: seq<Id>, source: Id): set<Id> {
    set k | k in rows && k in ids && rows[k].fireflies && rows[k].sourceId == source
  }

  /** What arrives is other writers': none of it has the id of a row of the runner's. */
  ghost predicate OthersArrive(ids: seq<Id>, arrivals: seq<Table>) {
    forall a, k :: a in arrivals && k in a ==> k !in ids
  }

  predicate IsOf(rows: Table, k: Id, source: Id) { k in rows && rows[k].fireflies && rows[k].sourceId == source }

  /** A visited own row that is still there is the only own row of its source id. */
  ghost predicate Settled(rows: Table, ids: seq<Id>, visited: seq<Id>, source: Id) {
    forall v, k :: v in visited && v in ids && IsOf(rows, v, source) && k in ids && IsOf(rows, k, source) ==> k == v
  }

  lemma Singleton<T>(s: set<T>, x: T, y: T)
    requires x in s && y in s && |s| <= 1
    ensures x == y
  {
    if x != y {
      assert {x, y} <= s;
      SubsetSize({x, y}, s);
    }
  }

  lemma VisitSettles(rows: Table, ids: seq<Id>, visited: seq<Id>, id: Id, arrivals: Table, source: Id)
    requires Settled(rows, ids, visited, source) && id in ids && forall k :: k in arrivals ==> k !in ids
    ensures var after := Visit(rows, id, arrivals);
            && Settled(after, ids, visited + [id], source)
            && forall k :: k in ids && k in after ==> k in rows && after[k] == rows[k]
  {
    var after := Visit(rows, id, arrivals);
    forall v, k | v in visited + [id] && v in ids && IsOf(after, v, source) && k in ids && IsOf(after, k, source)
      ensures k == v
    {
      if v !in visited { Singleton(SiblingsOf(rows, id), k, v); }
    }
  }

  lemma {:induction false} PassSettles(rows: Table, ids: seq<Id>, visited: seq<Id>, arrivals: seq<Table>, source: Id)
    requires |visited| == |arrivals| && OthersArrive(ids, arrivals) && forall v :: v in visited ==> v in ids
    ensures var after := Pass(rows, visited, arrivals);
            && Settled(after, ids, visited, source)
            && forall k :: k in ids && k in after ==> k in rows && after[k] == rows[k]
    decreases |visited|
  {
    hide Settled, IsOf;
    if visited == [] {
      NothingVisited(rows, ids, source);
    } else {
      var n := |visited| - 1;
      assert visited[n] in visited && arrivals[n] in arrivals;
      assert visited[..n] + [visited[n]] == visited;
      PassSettles(rows, ids, visited[..n], arrivals[..n], source);
      VisitSettles(Pass(rows, visited[..n], arrivals[..n]), ids, visited[..n], visited[n], arrivals[n], source);
    }
  }

  lemma NothingVisited(rows: Table, ids: seq<Id>, source: Id)
    ensures Settled(rows, ids, [], source)
  {}

  /** Beside a foreign row, which is never deleted, no visited own row of its source id stays. */
  lemma {:induction false} ForeignSettles(rows: Table, ids: seq<Id>, visited: seq<Id>, arrivals: seq<Table>, f: Id,
      source: Id)
    requires |visited| == |arrivals| && OthersArrive(ids, arrivals) && forall v :: v in visited ==> v in ids
    requires f !in ids && IsOf(rows, f, source)
    ensures var after := Pass(rows, visited, arrivals);
            IsOf(after, f, source) && forall v :: v in visited ==> !IsOf(after, v, source)
    decreases |visited|
  {
    if visited != [] {
      var n := |visited| - 1;
      assert visited[n] in visited && arrivals[n] in arrivals;
      ForeignSettles(rows, ids, visited[..n], arrivals[..n], f, source);
      ForeignVisit(Pass(rows, visited[..n], arrivals[..n]), visited[n], arrivals[n], f, source);
      forall v | v in visited ensures !IsOf(Pass(rows, visited, arrivals), v, source) {
        assert v in visited[..n] || v == visited[n];
        OwnDoNotArrive(Pass(rows, visited[..n], arrivals[..n]), visited[n], arrivals[n], v);
      }
    }
  }

  lemma ForeignVisit(rows: Table, id: Id, arrivals: Table, f: Id, source: Id)
    requires f != id && IsOf(rows, f, source) && id !in arrivals
    ensures var after := Visit(rows, id, arrivals); IsOf(after, f, source) && !IsOf(after, id, source)
  {
    if IsOf(rows, id, source) && |SiblingsOf(rows, id)| <= 1 { Singleton(SiblingsOf(rows, id), id, f); }
  }

  lemma OwnDoNotArrive(rows: Table, id: Id, arrivals: Table, v: Id)
    requires v !in arrivals
    ensures var after := Visit(rows, id, arrivals); v in after ==> v in rows && after[v] == rows[v]
  {}

  /** However other writers' inserts interleave, of the runner's rows of a source id at most one is left: none
      if another writer's row had the source id before the pass, and one if none has it afterwards. */
  lemma OneOwnRowUnlessForeign(rows: Table, ids: seq<Id>, arrivals: seq<Table>, source: Id)
    requires |ids| == |arrivals| && OthersArrive(ids, arrivals) && OwnRows(rows, ids, source) != {}
    ensures var after := Pass(rows, ids, arrivals);
            var left := OwnRows(after, ids, source);
            && (left == {} || exists k :: left == {k})
            && (Foreign(rows, ids, source) ==> left == {})
            && (!Foreign(after, ids, source) ==> exists k :: left == {k})
  {
    var after := Pass(rows, ids, arrivals);
    var left := OwnRows(after, ids, source);
    PassSettles(rows, ids, ids, arrivals, source);
    OnlyOwnRowsGo(rows, ids, arrivals);
    AtMostOne(after, ids, source);
    if Foreign(rows, ids, source) {
      var f :| f in rows && f !in ids && rows[f].fireflies && rows[f].sourceId == source;
      ForeignSettles(rows, ids, ids, arrivals, f, source);
    }
    if !Foreign(after, ids, source) {
      var own :| own in OwnRows(rows, ids, source);
      assert HasRow(rows, source);
      var k :| k in after && after[k].fireflies && after[k].sourceId == source;
      assert k in ids && k in left;
    }
  }

  lemma AtMostOne(rows: Table, ids: seq<Id>, source: Id)
    requires Settled(rows, ids, ids, source)
    ensures var left := OwnRows(rows, ids, source); left == {} || exists k :: left == {k}
  {
    var left := OwnRows(rows, ids, source);
    if left != {} {
      var k :| k in left;
      forall x ensures x in left <==> x == k { assert IsOf(rows, k, source); }
      assert left == {k};
    }
  }
}
