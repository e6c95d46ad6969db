/** What a report, a timer tick and the replies of the ledger lead to in a run of the usage flusher of
    backend/src/billing/ledger-flusher.ts: delivery, and resending after a loss. */
module LedgerDelivery {
  import opened LedgerFlusher
  import opened Optional

  // ---- The ledger -----------------------------------------------------------------------------------

  /** Ingesting adds exactly the missing ids, behind what the ledger holds, and a batch it holds adds nothing. */
  lemma {:induction false} IngestAddsMissing(ledger: seq<Record>, batch: seq<Record>)
    ensures ledger <= Ingest(ledger, batch)
    ensures Ids(Ingest(ledger, batch)) == Ids(ledger) + Ids(batch)
    ensures Ids(batch) <= Ids(ledger) ==> Ingest(ledger, batch) == ledger
    decreases |batch|
  {
    if batch != [] {
      var next := if batch[0].id in Ids(ledger) then ledger else ledger + [batch[0]];
      assert batch[0] in batch;
      assert Ids(next) == Ids(ledger) + {batch[0].id} by {
        assert forall r :: r in next ==> r in ledger || r == batch[0];
        assert batch[0].id !in Ids(ledger) ==> batch[0] in next;
        assert forall r :: r in ledger ==> r in next;
      }
      IngestAddsMissing(next, batch[1..]);
      assert Ids(batch) == {batch[0].id} + Ids(batch[1..]) by {
        assert forall r :: r in batch <==> r == batch[0] || r in batch[1..];
      }
    }
  }

  // ---- Reporting ------------------------------------------------------------------------------------

  /** A new record goes to the end of the outbox, from which a full one first drops its oldest record. When no
      batch is in flight and the outbox has reached 50 records, the whole outbox is sent at once; otherwise
      nothing is sent. */
  lemma ReportSends(acts: seq<Act>, record: Record)
    requires record.id !in Ids(Exec(acts).enqueued)
    ensures var s, t := Exec(acts), Next(Exec(acts), Report(record));
            var full := |s.box.outbox| == 5000;
            && t.enqueued == s.enqueued + [record]
            && t.box.outbox == (if full then s.box.outbox[1..] else s.box.outbox) + [record]
            && t.evicted == (if full then s.evicted + {s.box.outbox[0].id} else s.evicted)
            && (if s.inFlight.None? && |t.box.outbox| >= 50 then
                  t.inFlight == Some(t.box.outbox) && t.sent == s.sent + {t.box.outbox}
                else t.inFlight == s.inFlight && t.sent == s.sent)
            && (t.box.flushing <==> t.inFlight.Some?)
            && t.ledger == s.ledger && t.acked == s.acked
  {
    Reachable(acts);
  }

  // ---- Delivery -------------------------------------------------------------------------------------

  function Ticked(s: System): System { Next(s, Tick) }
  function Delivered(s: System): System { Next(Ticked(s), Arrive(s.box.outbox)) }

  /** With nothing in flight a tick sends the whole outbox, and an empty one sends nothing; with a batch in
      flight a tick does nothing. */
  lemma TickSends(acts: seq<Act>)
    ensures var s, t := Exec(acts), Ticked(Exec(acts));
            && t.box.outbox == s.box.outbox && t.ledger == s.ledger && t.enqueued == s.enqueued
            && t.acked == s.acked && t.evicted == s.evicted
            && (if s.inFlight.None? && s.box.outbox != [] then
                  t.inFlight == Some(s.box.outbox) && t.sent == s.sent + {s.box.outbox} && t.box.flushing
                else t == s)
  {
    Reachable(acts);
  }

  /** A tick whose request arrives and is acknowledged empties the outbox: every record ever enqueued is then in
      the ledger, unless it was evicted, and a new record starts an outbox of its own. */
  lemma DeliveryEmptiesTheOutbox(acts: seq<Act>)
    requires Exec(acts).inFlight.None? && Exec(acts).box.outbox != []
    ensures var s := Exec(acts);
            var t := Next(Delivered(s), Acknowledge);
            && t.box == Box([], false) && t.inFlight.None?
            && t.enqueued == s.enqueued && t.evicted == s.evicted
            && s.ledger <= t.ledger && Ids(t.ledger) == Ids(s.ledger) + Ids(s.box.outbox)
            && t.acked == s.acked + Ids(s.box.outbox)
            && forall r :: r in s.enqueued ==> r.id in Ids(t.ledger) || r.id in s.evicted
  {
    NothingIsLost(acts);
    Reachable(acts);
    var s := Exec(acts);
    hide Exec, Without, Credits, CreditsOf, Ingest;
    IngestAddsMissing(s.ledger, s.box.outbox);
    AllDropped(s.box.outbox, Ids(s.box.outbox));
    WithoutMembers(s.enqueued, s.acked + s.evicted);
  }

  /** A batch whose request or reply is lost stays in the outbox as it was, and the next tick sends it again;
      when the ledger had received it all the same, the repetition adds nothing, and its acknowledgement empties
      the outbox. */
  lemma LostBatchIsResent(acts: seq<Act>, received: bool)
    requires Exec(acts).inFlight.None? && Exec(acts).box.outbox != []
    ensures var s := Exec(acts);
            var lost := Next(if received then Delivered(s) else Ticked(s), Lose);
            var t := Ticked(lost);
            && lost.box == s.box && lost.inFlight.None? && lost.acked == s.acked && lost.evicted == s.evicted
            && lost.enqueued == s.enqueued
            && t.inFlight == Some(s.box.outbox) && t.box.outbox == s.box.outbox
            && (received ==> Next(t, Arrive(s.box.outbox)) == t && Next(t, Acknowledge).box == Box([], false))
            && (!received ==> t.ledger == s.ledger)
  {
    Reachable(acts);
    var s := Exec(acts);
    hide Exec, Without, Credits, CreditsOf, Ingest;
    IngestAddsMissing(s.ledger, s.box.outbox);
    IngestAddsMissing(Delivered(s).ledger, s.box.outbox);
    AllDropped(s.box.outbox, Ids(s.box.outbox));
  }

  /** A reply reports success only for a batch that the ledger holds, only requests that were sent arrive, and
      without a batch in flight no reply does anything. */
  lemma RepliesFollowRequests(acts: seq<Act>, batch: seq<Record>)
    ensures var s := Exec(acts);
            && (s.inFlight.None? ==> Next(s, Acknowledge) == s && Next(s, Lose) == s)
            && (s.inFlight.Some? && !(Ids(s.inFlight.value) <= Ids(s.ledger)) ==> Next(s, Acknowledge) == s)
            && (batch !in s.sent ==> Next(s, Arrive(batch)) == s)
  {}

  /** A run starts with nothing enqueued, sent or recorded, and goes on act by act. */
  lemma RunsGoOn(acts: seq<Act>, act: Act)
    ensures var s := Exec([]);
            s.box == Box([], false) && s.inFlight.None? && s.sent == {} && s.ledger == [] && s.enqueued == []
            && s.acked == {} && s.evicted == {}
    ensures Exec(acts + [act]) == Next(Exec(acts), act)
  {
    assert (acts + [act])[..|acts|] == acts;
  }
}
