/** backend/src/billing/ledger-flusher.ts: the outbox of usage records and its single-flight flush, first
    as the class of the source, then interleaved with a network that loses requests and replies and with
    a ledger that deduplicates by record id. */
module LedgerFlusher {
  import opened Optional

  /** `id` is the random record_id; the fields the flusher never looks at are left out. */
  datatype Record = Record(id: nat, credits: nat)

  const OUTBOX_CAP: nat := 5000
  const FLUSH_SIZE_TRIGGER: nat := 50

  function Ids(records: seq<Record>): set<nat> { set r | r in records :: r.id }

  /** `filter`: the records whose id is not in `dropped`, in order. */
  function Without(records: seq<Record>, dropped: set<nat>): seq<Record> {
    if records == [] then []
    else
      var rest := Without(records[..|records| - 1], dropped);
      if records[|records| - 1].id in dropped then rest else rest + [records[|records| - 1]]
  }

  // ---- The flusher --------------------------------------------------------------------------------

  /** The state of a flusher and the batch its last call handed to fetch, if any. */
  datatype Box = Box(outbox: seq<Record>, flushing: bool)
  datatype Started = Started(box: Box, batch: Option<seq<Record>>)

  /** The part of `flush` before its await. */
  function BeginFlush(b: Box): Started {
    if b.flushing || b.outbox == [] then Started(b, None) else Started(b.(flushing := true), Some(b.outbox))
  }

  function Enqueue(b: Box, record: Record): Started {
    var kept := if |b.outbox| >= OUTBOX_CAP then b.outbox[1..] else b.outbox;
    var box := b.(outbox := kept + [record]);
    if |box.outbox| >= FLUSH_SIZE_TRIGGER then BeginFlush(box) else Started(box, None)
  }

  /** The part of `flush` after its await; `ok` is an HTTP success. */
  function EndFlush(b: Box, batch: seq<Record>, ok: bool): Box {
    Box(if ok then Without(b.outbox, Ids(batch)) else b.outbox, false)
  }

  class Flusher {
    var outbox: seq<Record>
    var flushing: bool
    var ticking: bool

    ghost function Model(): Box reads this`outbox, this`flushing { Box(outbox, flushing) }

    constructor ()
      ensures Model() == Box([], false) && !ticking
    {
      outbox, flushing, ticking := [], false, false;
    }

    /** Only a full outbox loses a record, its oldest, so the cap is kept; the new record is last; and a flush
        is under way afterwards, this call's or an earlier one's, whenever the outbox reaches the trigger. */
    method Push(record: Record) returns (batch: Option<seq<Record>>)
      modifies this`outbox, this`flushing
      ensures Started(Model(), batch) == Enqueue(old(Model()), record)
      ensures old(|outbox|) <= OUTBOX_CAP ==> |outbox| <= OUTBOX_CAP
      ensures outbox == old(outbox) + [record]
        || (old(|outbox|) >= OUTBOX_CAP && [old(outbox[0])] + outbox == old(outbox) + [record])
      ensures |outbox| >= FLUSH_SIZE_TRIGGER ==> flushing
      ensures batch.Some? ==> !old(flushing) && batch.value == outbox
      ensures batch.None? ==> flushing == old(flushing)
    {
      if |outbox| >= OUTBOX_CAP {
        outbox := outbox[1..];
      }
      outbox := outbox + [record];
      batch := None;
      if |outbox| >= FLUSH_SIZE_TRIGGER {
        batch := Begin();
      }
    }

    /** Single flight: a batch is taken only while none is in flight, it is the whole outbox, and it leaves
        the system it belongs to in order. */
    method Begin() returns (batch: Option<seq<Record>>)
      modifies this`flushing
      ensures Started(Model(), batch) == BeginFlush(old(Model()))
      ensures batch.Some? ==> !old(flushing) && flushing && batch.value == outbox != []
      ensures batch.None? ==> flushing == old(flushing) && (flushing || outbox == [])
      ensures forall s: System :: s.box == old(Model()) && Inv(s) ==> Inv(Send(s, Started(Model(), batch)))
    {
      forall s: System | s.box == Model() && Inv(s) ensures Inv(Send(s, BeginFlush(Model()))) { BeginKeeps(s); }
      if flushing || outbox == [] { return None; }
      flushing := true;
      return Some(outbox);
    }

    method End(batch: seq<Record>, ok: bool)
      modifies this`outbox, this`flushing
      ensures Model() == EndFlush(old(Model()), batch, ok)
    {
      if ok {
        var kept: seq<Record> := [];
        for i := 0 to |outbox|
          invariant kept == Without(outbox[..i], Ids(batch))
        {
          assert outbox[..i + 1][..i] == outbox[..i];
          if outbox[i].id !in Ids(batch) { kept := kept + [outbox[i]]; }
        }
        assert outbox[..|outbox|] == outbox;
        outbox := kept;
      }
      flushing := false;
    }

    method Start() modifies this`ticking ensures ticking { ticking := true; }
    method Stop() modifies this`ticking ensures !ticking { ticking := false; }
  }

  // ---- Flusher, network and ledger ----------------------------------------------------------------

  /** The ledger keeps the first record of each id. */
  function Ingest(ledger: seq<Record>, batch: seq<Record>): seq<Record>
    decreases |batch|
  {
    if batch == [] then ledger
    else Ingest(if batch[0].id in Ids(ledger) then ledger else ledger + [batch[0]], batch[1..])
  }

  /** `sent` are the requests on the wire, which may arrive late, repeatedly or never. The last four
      fields only remember the run: every record ever enqueued, the ids of acknowledged batches, the ids
      evicted at the cap, and how many records had been enqueued when the batch in flight was taken. */
  datatype System = System(box: Box, inFlight: Option<seq<Record>>, sent: set<seq<Record>>, ledger: seq<Record>,
                           enqueued: seq<Record>, acked: set<nat>, evicted: set<nat>, snapshot: nat)

  datatype Act =
    | Report(record: Record)          // a usage record is enqueued
    | Tick                            // the interval timer
    | Arrive(batch: seq<Record>)      // a request reaches the ledger
    | Acknowledge                     // the reply of the batch in flight reports success
    | Lose                            // timeout, network error or HTTP failure

  const START: System := System(Box([], false), None, {}, [], [], {}, {}, 0)

  function Send(s: System, started: Started): System {
    if started.batch.None? then s.(box := started.box)
    else
      s.(box := started.box, inFlight := started.batch, sent := s.sent + {started.batch.value},
        snapshot := |s.enqueued|)
  }

  /** A successful reply means that the ledger has ingested the batch; record ids are never reused. */
  function Next(s: System, act: Act): System {
    match act
    case Report(record) =>
      if record.id in Ids(s.enqueued) then s
      else
        var evicted := if |s.box.outbox| >= OUTBOX_CAP then s.evicted + {s.box.outbox[0].id} else s.evicted;
        Send(s.(enqueued := s.enqueued + [record], evicted := evicted), Enqueue(s.box, record))
    case Tick => Send(s, BeginFlush(s.box))
    case Arrive(batch) => if batch in s.sent then s.(ledger := Ingest(s.ledger, batch)) else s
    case Acknowledge =>
      if s.inFlight.None? || !(Ids(s.inFlight.value) <= Ids(s.ledger)) then s
      else
        s.(box := EndFlush(s.box, s.inFlight.value, true), inFlight := None, acked := s.acked + Ids(s.inFlight.value))
    case Lose => if s.inFlight.None? then s else s.(box := EndFlush(s.box, s.inFlight.value, false), inFlight := None)
  }

  function Exec(acts: seq<Act>): System {
    if acts == [] then START else Next(Exec(acts[..|acts| - 1]), acts[|acts| - 1])
  }

  function Credits(records: seq<Record>): nat {
    if records == [] then 0 else Credits(records[..|records| - 1]) + records[|records| - 1].credits
  }

  /** The credits of the records whose id is in `ids`. */
  function CreditsOf(records: seq<Record>, ids: set<nat>): nat {
    if records == [] then 0
    else
      var last := records[|records| - 1];
      CreditsOf(records[..|records| - 1], ids) + (if last.id in ids then last.credits else 0)
  }

  ghost predicate DistinctIds(records: seq<Record>) {
    forall i, j :: 0 <= i < j < |records| ==> records[i].id != records[j].id
  }

  ghost predicate Among(records: seq<Record>, all: seq<Record>) { forall r :: r in records ==> r in all }

  ghost predicate Inv(s: System) {
    && DistinctIds(s.enqueued)
    && s.box.outbox == Without(s.enqueued, s.acked + s.evicted)
    && |s.box.outbox| <= OUTBOX_CAP
    && (s.box.flushing <==> s.inFlight.Some?)
    && (s.inFlight.Some? ==> s.snapshot <= |s.enqueued| && Among(s.inFlight.value, s.enqueued[..s.snapshot])
                             && Ids(s.enqueued[..s.snapshot]) <= Ids(s.inFlight.value) + s.acked + s.evicted)
    && (forall batch :: batch in s.sent ==> Among(batch, s.enqueued))
    && s.acked <= Ids(s.ledger) && s.evicted <= Ids(s.enqueued)
    && Among(s.ledger, s.enqueued)
    && Credits(s.ledger) == CreditsOf(s.enqueued, Ids(s.ledger))
  }

  // ---- Sequences of records -----------------------------------------------------------------------

  lemma {:induction false} WithoutMembers(records: seq<Record>, dropped: set<nat>)
    ensures forall r :: r in Without(records, dropped) <==> r in records && r.id !in dropped
    ensures |Without(records, dropped)| <= |records|
  {
    if records != [] {
      WithoutMembers(records[..|records| - 1], dropped);
      assert forall r :: r in records <==> r in records[..|records| - 1] || r == records[|records| - 1];
    }
  }

  lemma {:induction false} WithoutTwice(records: seq<Record>, a: set<nat>, b: set<nat>)
    ensures Without(Without(records, a), b) == Without(records, a + b)
  {
    if records != [] {
      var last, kept := records[|records| - 1], Without(records[..|records| - 1], a);
      WithoutTwice(records[..|records| - 1], a, b);
      if last.id !in a {
        assert (kept + [last])[..|kept|] == kept;
      }
    }
  }

  lemma {:induction false} WithoutConcat(x: seq<Record>, y: seq<Record>, dropped: set<nat>)
    ensures Without(x + y, dropped) == Without(x, dropped) + Without(y, dropped)
    decreases |y|
  {
    if y == [] {
      assert x + y == x;
      assert Without(x, dropped) + [] == Without(x, dropped);
    } else {
      WithoutConcat(x, y[..|y| - 1], dropped);
      assert (x + y)[..|x + y| - 1] == x + y[..|y| - 1];
    }
  }

  /** Dropping the id of the first record left drops exactly that record. */
  lemma {:induction false} DropFirst(records: seq<Record>, dropped: set<nat>)
    requires DistinctIds(records) && Without(records, dropped) != []
    ensures Without(records, dropped + {Without(records, dropped)[0].id}) == Without(records, dropped)[1..]
  {
    var before, last := records[..|records| - 1], records[|records| - 1];
    var kept := Without(before, dropped);
    if kept == [] {
      assert Without(records, dropped) == [last];
      WithoutTwice(before, dropped, {last.id});
    } else {
      DropFirst(before, dropped);
      WithoutMembers(before, dropped);
      assert kept[0] in before;
      assert Without(records, dropped)[0] == kept[0];
    }
  }

  lemma {:induction false} AllDropped(records: seq<Record>, dropped: set<nat>)
    requires Ids(records) <= dropped
    ensures Without(records, dropped) == []
  {
    if records != [] {
      assert records[|records| - 1] in records;
      assert Ids(records[..|records| - 1]) <= Ids(records);
      AllDropped(records[..|records| - 1], dropped);
    }
  }

  lemma {:induction false} CreditsOfOneMore(records: seq<Record>, ids: set<nat>, r: Record)
    requires DistinctIds(records) && r in records && r.id !in ids
    ensures CreditsOf(records, ids + {r.id}) == CreditsOf(records, ids) + r.credits
  {
    var before, last := records[..|records| - 1], records[|records| - 1];
    if last == r {
      CreditsOfSame(before, ids, r.id);
    } else {
      assert r in before;
      CreditsOfOneMore(before, ids, r);
    }
  }

  lemma {:induction false} CreditsOfSame(records: seq<Record>, ids: set<nat>, id: nat)
    requires forall r :: r in records ==> r.id != id
    ensures CreditsOf(records, ids + {id}) == CreditsOf(records, ids)
  {
    if records != [] {
      assert records[|records| - 1] in records;
      CreditsOfSame(records[..|records| - 1], ids, id);
    }
  }

  lemma {:induction false} CreditsOfAtMost(records: seq<Record>, ids: set<nat>)
    ensures CreditsOf(records, ids) <= Credits(records)
    ensures Ids(records) <= ids ==> CreditsOf(records, ids) == Credits(records)
  {
    if records != [] {
      CreditsOfAtMost(records[..|records| - 1], ids);
      assert records[|records| - 1] in records;
      assert Ids(records[..|records| - 1]) <= Ids(records);
    }
  }

  // ---- Every step keeps the invariant -------------------------------------------------------------

  lemma {:induction false} IngestKeeps(ledger: seq<Record>, batch: seq<Record>, all: seq<Record>)
    requires DistinctIds(all) && Among(ledger, all) && Among(batch, all)
      && Credits(ledger) == CreditsOf(all, Ids(ledger))
    ensures var l := Ingest(ledger, batch);
            Among(l, all) && Credits(l) == CreditsOf(all, Ids(l)) && Ids(ledger) <= Ids(l) && Ids(batch) <= Ids(l)
    decreases |batch|
  {
    if batch != [] {
      assert batch[0] in batch;
      var next := if batch[0].id in Ids(ledger) then ledger else ledger + [batch[0]];
      if batch[0].id !in Ids(ledger) {
        CreditsOfOneMore(all, Ids(ledger), batch[0]);
        assert Ids(next) == Ids(ledger) + {batch[0].id} by {
          assert forall r :: r in next <==> r in ledger || r == batch[0];
        }
      }
      IngestKeeps(next, batch[1..], all);
      assert forall r :: r in batch <==> r == batch[0] || r in batch[1..];
    }
  }

  /** Taking the outbox as the batch in flight. */
  lemma BeginKeeps(s: System)
    requires Inv(s)
    ensures Inv(Send(s, BeginFlush(s.box)))
  {
    if !s.box.flushing && s.box.outbox != [] {
      WithoutMembers(s.enqueued, s.acked + s.evicted);
      assert s.enqueued[..|s.enqueued|] == s.enqueued;
    }
  }

  /** The system after pushing one record, before a size-triggered flush begins. */
  function Pushed(s: System, record: Record): System {
    var full := |s.box.outbox| >= OUTBOX_CAP;
    s.(enqueued := s.enqueued + [record],
       evicted := if full then s.evicted + {s.box.outbox[0].id} else s.evicted,
       box := s.box.(outbox := (if full then s.box.outbox[1..] else s.box.outbox) + [record]))
  }

  lemma PushedOutbox(s: System, record: Record)
    requires Inv(s) && record.id !in Ids(s.enqueued)
    ensures var s' := Pushed(s, record);
            s'.box.outbox == Without(s'.enqueued, s'.acked + s'.evicted) && s'.evicted <= Ids(s.enqueued)
              && |s'.box.outbox| <= OUTBOX_CAP
  {
    var gone := s.acked + s.evicted;
    var s' := Pushed(s, record);
    WithoutMembers(s.enqueued, gone);
    if |s.box.outbox| >= OUTBOX_CAP {
      DropFirst(s.enqueued, gone);
      assert gone + {s.box.outbox[0].id} == s'.acked + s'.evicted;
      assert s.box.outbox[0] in s.box.outbox;
    }
    assert s.acked <= Ids(s.enqueued) by {
      assert forall id :: id in Ids(s.ledger) ==> id in Ids(s.enqueued);
    }
    assert (s.enqueued + [record])[..|s.enqueued|] == s.enqueued;
  }

  lemma PushKeeps(s: System, record: Record)
    requires Inv(s) && record.id !in Ids(s.enqueued)
    ensures Inv(Pushed(s, record))
  {
    PushedOutbox(s, record);
    PushedCredits(s.enqueued, s.ledger, record);
    PushedIds(s.enqueued, record);
    hide Without, Credits, CreditsOf;
    var s' := Pushed(s, record);
    assert forall r :: r in s'.enqueued <==> r in s.enqueued || r == record;
    if s.inFlight.Some? {
      assert s'.enqueued[..s.snapshot] == s.enqueued[..s.snapshot];
    }
  }

  lemma PushedIds(records: seq<Record>, record: Record)
    requires DistinctIds(records) && record.id !in Ids(records)
    ensures DistinctIds(records + [record]) && Ids(records) <= Ids(records + [record])
  {
    assert forall r :: r in records ==> r.id != record.id;
    assert forall r :: r in records ==> r in records + [record];
  }

  lemma PushedCredits(records: seq<Record>, ledger: seq<Record>, record: Record)
    requires Among(ledger, records) && record.id !in Ids(records)
    ensures CreditsOf(records + [record], Ids(ledger)) == CreditsOf(records, Ids(ledger))
  {
    assert (records + [record])[..|records|] == records;
    assert record.id !in Ids(ledger);
  }

  lemma ReportKeeps(s: System, record: Record)
    requires Inv(s)
    ensures Inv(Next(s, Report(record)))
  {
    if record.id !in Ids(s.enqueued) {
      PushKeeps(s, record);
      BeginKeeps(Pushed(s, record));
    }
  }

  lemma AcknowledgeKeeps(s: System)
    requires Inv(s)
    ensures Inv(Next(s, Acknowledge))
  {
    if s.inFlight.Some? && Ids(s.inFlight.value) <= Ids(s.ledger) {
      var batch := s.inFlight.value;
      WithoutTwice(s.enqueued, s.acked + s.evicted, Ids(batch));
      assert s.acked + s.evicted + Ids(batch) == (s.acked + Ids(batch)) + s.evicted;
      WithoutMembers(s.box.outbox, Ids(batch));
    }
  }

  lemma NextKeeps(s: System, act: Act)
    requires Inv(s)
    ensures Inv(Next(s, act))
  {
    match act
    case Report(record) => ReportKeeps(s, record);
    case Tick => BeginKeeps(s);
    case Arrive(batch) => if batch in s.sent { IngestKeeps(s.ledger, batch, s.enqueued); }
    case Acknowledge => AcknowledgeKeeps(s);
    case Lose =>
  }

  lemma {:induction false} Reachable(acts: seq<Act>)
    ensures Inv(Exec(acts))
  {
    if acts != [] {
      Reachable(acts[..|acts| - 1]);
      NextKeeps(Exec(acts[..|acts| - 1]), acts[|acts| - 1]);
    }
  }

  // ---- Main results -------------------------------------------------------------------------------

  /** In every run the outbox holds at most 5000 records: exactly those enqueued, in enqueue order, that
      were neither in an acknowledged batch nor evicted; acknowledged records are in the ledger. */
  lemma NothingIsLost(acts: seq<Act>)
    ensures
      var s := Exec(acts);
      && |s.box.outbox| <= OUTBOX_CAP
      && s.box.outbox == Without(s.enqueued, s.acked + s.evicted)
      && s.acked <= Ids(s.ledger)
      && forall r :: r in s.enqueued ==> r in s.box.outbox || r.id in s.acked || r.id in s.evicted
  {
    Reachable(acts);
    WithoutMembers(Exec(acts).enqueued, Exec(acts).acked + Exec(acts).evicted);
  }

  /** Only a full outbox evicts, and only its oldest record. */
  lemma OnlyTheOldestIsEvicted(acts: seq<Act>, act: Act)
    requires Next(Exec(acts), act).evicted != Exec(acts).evicted
    ensures var s := Exec(acts);
            act.Report? && |s.box.outbox| == OUTBOX_CAP && Next(s, act).evicted == s.evicted + {s.box.outbox[0].id}
  {
    Reachable(acts);
  }

  /** After a successful flush the outbox holds only records enqueued after its snapshot: all of them that
      were not evicted meanwhile. */
  lemma FlushLeavesOnlyNewer(acts: seq<Act>)
    requires var s := Exec(acts); s.inFlight.Some? && Ids(s.inFlight.value) <= Ids(s.ledger)
    ensures var s := Exec(acts);
            var s' := Next(s, Acknowledge);
            s.snapshot <= |s.enqueued| && s'.box.outbox == Without(s.enqueued[s.snapshot..], s'.acked + s'.evicted)
              && !s'.box.flushing
  {
    Reachable(acts);
    var s := Exec(acts);
    var s' := Next(s, Acknowledge);
    NextKeeps(s, Acknowledge);
    hide Without, Credits, CreditsOf, Exec;
    var before, after := s.enqueued[..s.snapshot], s.enqueued[s.snapshot..];
    assert s.enqueued == before + after;
    WithoutConcat(before, after, s'.acked + s'.evicted);
    AllDropped(before, s'.acked + s'.evicted);
    assert [] + Without(after, s'.acked + s'.evicted) == Without(after, s'.acked + s'.evicted);
  }

  lemma {:induction false} WaitingCredits(records: seq<Record>, dropped: set<nat>, waiting: set<nat>)
    requires forall r :: r in records ==> (r.id in waiting <==> r.id !in dropped)
    ensures Credits(Without(records, dropped)) == CreditsOf(records, waiting)
  {
    if records != [] {
      var before, last := records[..|records| - 1], records[|records| - 1];
      assert last in records && forall r :: r in before ==> r in records;
      WaitingCredits(before, dropped, waiting);
      var kept := Without(before, dropped);
      assert (kept + [last])[..|kept|] == kept;
    }
  }

  /** Credits counted three ways: every record is recorded, waiting or evicted, never waiting and evicted at
      once, and what is counted twice is recorded. */
  lemma {:induction false} CountedThrice(records: seq<Record>, recorded: set<nat>, waiting: set<nat>, evicted: set<nat>)
    requires waiting !! evicted && forall r :: r in records ==> r.id in recorded + waiting + evicted
    ensures CreditsOf(records, recorded) + CreditsOf(records, waiting) + CreditsOf(records, evicted)
            == Credits(records) + CreditsOf(records, recorded * (waiting + evicted))
  {
    if records != [] {
      var before, last := records[..|records| - 1], records[|records| - 1];
      assert last in records && forall r :: r in before ==> r in records;
      CountedThrice(before, recorded, waiting, evicted);
    }
  }

  lemma {:induction false} CreditsOfNone(records: seq<Record>)
    ensures CreditsOf(records, {}) == 0
  {
    if records != [] { CreditsOfNone(records[..|records| - 1]); }
  }

  /** The records that are waiting or evicted although the ledger has them: their reply was lost, or is still
      to come. */
  function Repeated(s: System): set<nat> { Ids(s.ledger) * (Ids(s.box.outbox) + s.evicted) }

  lemma OutboxIsWaiting(s: System)
    requires Inv(s)
    ensures Ids(s.box.outbox) !! s.evicted
    ensures forall r :: r in s.enqueued ==> (r.id in Ids(s.box.outbox) <==> r.id !in s.acked + s.evicted)
  {
    WithoutMembers(s.enqueued, s.acked + s.evicted);
    forall r | r in s.enqueued && r.id in Ids(s.box.outbox) ensures r.id !in s.acked + s.evicted {
      var x :| x in s.box.outbox && x.id == r.id;
    }
  }

  /** However many requests and replies are lost, repeated or late: recorded, waiting and evicted credits add
      up to the enqueued ones and those of the records counted twice, so nothing enqueued is unaccounted for
      and the account is exact when no record is. The ledger never records more credits than were enqueued,
      and exactly them once the outbox is drained without any eviction. */
  lemma CreditsAreConserved(acts: seq<Act>)
    ensures
      var s := Exec(acts);
      var account := Credits(s.ledger) + Credits(s.box.outbox) + CreditsOf(s.enqueued, s.evicted);
      && account == Credits(s.enqueued) + CreditsOf(s.enqueued, Repeated(s))
      && account >= Credits(s.enqueued) && (Repeated(s) == {} ==> account == Credits(s.enqueued))
      && Credits(s.ledger) <= Credits(s.enqueued)
      && (s.box.outbox == [] && s.evicted == {} ==> Credits(s.ledger) == Credits(s.enqueued))
  {
    Reachable(acts);
    var s := Exec(acts);
    hide Exec;
    OutboxIsWaiting(s);
    WaitingCredits(s.enqueued, s.acked + s.evicted, Ids(s.box.outbox));
    CountedThrice(s.enqueued, Ids(s.ledger), Ids(s.box.outbox), s.evicted);
    CreditsOfAtMost(s.enqueued, Ids(s.ledger));
    CreditsOfNone(s.enqueued);
    if s.box.outbox == [] && s.evicted == {} { assert Repeated(s) == {} && Credits([]) == 0; }
  }
}
