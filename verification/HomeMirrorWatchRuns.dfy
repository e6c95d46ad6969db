/** What the event watcher does when it is left alone: a notification is served page by page, a failure or an abort
    ends the watch for good, and a renewed connection is opened again and reconciled from the start. */
module HomeMirrorWatchRuns {
  import opened HomeMirrorWatch

  /** The watcher may still forward. */
  predicate Live(s: Watcher) { !s.aborted && !s.failed }

  // ---- Notifications ------------------------------------------------------------------------------

  /** A notification that the watcher accepts. */
  predicate Heard(s: Watcher, act: Act) {
    (act == Event && s.ready && s.connection.Online?) || (act == Ready && s.connection == Online(false) && !s.aborted)
  }

  /** An accepted notification starts a drain at once when none is running, and otherwise asks the running one for
      another pass; nothing else changes. */
  lemma NotificationIsServed(s: Watcher, act: Act)
    requires Live(s) && Heard(s, act)
    ensures
      var t := Next(s, act);
      && t.ready && t.noticedAt > s.ticks && t.savedAtNotice == s.saved && t.saved == s.saved
      && Live(t) && t.connection == s.connection && t.fullPass == s.fullPass && t.offered == s.offered
      && t.fullPassAt == s.fullPassAt
      && (s.drain.Idle? ==>
            && t.drain == Paging(0) && !t.dirty && t.passAt > t.noticedAt && t.savedAtPass == s.saved
            && t.handled == [] && t.pages == 0 && t.drainsRunning == s.drainsRunning + 1)
      && (!s.drain.Idle? ==>
            && t.drain == s.drain && t.dirty && t.passAt == s.passAt && t.handled == s.handled
            && t.pages == s.pages && t.drainsRunning == s.drainsRunning)
  {
  }

  /** Without a ready connection, or after a failure or an abort, a notification starts nothing. */
  lemma OtherwiseNothingStarts(s: Watcher, act: Act)
    requires (act == Event || act == Ready) && (!Heard(s, act) || !Live(s))
    ensures Next(s, act).drain == s.drain && Next(s, act).dirty == s.dirty && Next(s, act).passAt == s.passAt
    ensures !Heard(s, act) && (act == Event ==> !s.ready || !s.connection.Online?) ==> Next(s, act) == s
  {
  }

  // ---- A drain left alone -------------------------------------------------------------------------

  function Min(a: nat, b: nat): nat { if a < b then a else b }

  /** The next page of at most `limit` responses, as the log serves it. */
  function Served(s: Watcher, limit: nat): Act
    requires s.drain.Paging?
  {
    var next := Min(s.drain.after + limit, s.saved);
    Page(next, next < s.saved, false)
  }

  /** A pass that is left alone, from its next page to the last one; every page is forwarded. */
  function PassAlone(s: Watcher, limit: nat): Watcher
    requires s.drain.Paging? && s.drain.after <= s.saved && limit > 0
    decreases s.saved - s.drain.after
  {
    var handling := Next(s, Served(s, limit));
    var done := Next(handling, HandledAll(false));
    if handling.drain.Handling? && handling.drain.hasMore && done.drain.Paging? && done.saved == s.saved
       && s.drain.after < done.drain.after <= s.saved
    then PassAlone(done, limit) else done
  }

  /** The pages of a pass: stretches of the limit's length, end to end, the last one up to the newest response. */
  function PagesFrom(after: nat, saved: nat, limit: nat): seq<Stretch>
    requires after <= saved && limit > 0
    decreases saved - after
  {
    if after + limit >= saved then [Stretch(after, saved)]
    else [Stretch(after, after + limit)] + PagesFrom(after + limit, saved, limit)
  }

  /** A pass left alone forwards page after page up to the newest response; then the drain ends, or starts over if
      another notification had come. */
  lemma {:induction false} PassReachesTheEnd(s: Watcher, limit: nat)
    requires Live(s) && s.drain.Paging? && s.drain.after <= s.saved && limit > 0
    ensures
      var pages := s.handled + PagesFrom(s.drain.after, s.saved, limit);
      var t := PassAlone(s, limit);
      && t.fullPass == pages && t.offered == s.saved && t.fullPassAt == s.passAt
      && t.saved == s.saved && Live(t) && t.ready == s.ready && t.connection == s.connection
      && t.noticedAt == s.noticedAt && t.savedAtNotice == s.savedAtNotice && t.drainsRunning == s.drainsRunning
      && if s.dirty
         then t.drain == Paging(0) && !t.dirty && t.passAt > s.ticks && t.savedAtPass == s.saved && t.handled == []
         else t.drain == Exited(false) && !t.dirty && t.passAt == s.passAt && t.handled == pages
    decreases s.saved - s.drain.after
  {
    var after := s.drain.after;
    var handling := Next(s, Served(s, limit));
    var done := Next(handling, HandledAll(false));
    if after + limit < s.saved {
      assert done == s.(handled := s.handled + [Stretch(after, after + limit)], pages := s.pages + 1,
                        drain := Paging(after + limit));
      PassReachesTheEnd(done, limit);
      assert s.handled + PagesFrom(after, s.saved, limit)
        == s.handled + [Stretch(after, after + limit)] + PagesFrom(after + limit, s.saved, limit);
    }
  }

  /** From a notification to quiet: a ready watcher with nothing running serves it by one full pass over every
      response saved by then, and is quiet again. */
  lemma NotificationIsDrained(s: Watcher, limit: nat)
    requires Live(s) && s.ready && s.connection.Online? && s.drain.Idle? && !s.dirty && limit > 0
    ensures
      var t := Next(Next(PassAlone(Next(s, Event), limit), Catch(false)), Finally);
      && t.drain.Idle? && !t.dirty && t.ready && Live(t) && t.drainsRunning == s.drainsRunning
      && t.fullPass == PagesFrom(0, s.saved, limit) && t.offered == s.saved && t.noticedAt < t.fullPassAt
  {
    NotificationIsServed(s, Event);
    PassReachesTheEnd(Next(s, Event), limit);
    assert [] + PagesFrom(0, s.saved, limit) == PagesFrom(0, s.saved, limit);
  }

  // ---- Failures -----------------------------------------------------------------------------------

  /** An act that fails a running drain: a page or a forward fails, or a page with more to come does not advance. */
  predicate Breaks(s: Watcher, act: Act) {
    || (act.Page? && act.fails && s.drain.Paging? && s.drain.after <= act.next <= s.saved
        && (act.hasMore || act.next == s.saved))
    || (act.HandledAll? && act.fails && s.drain.Handling?)
    || (act.HandledAll? && s.drain.Handling? && s.drain.hasMore && s.drain.next <= s.drain.after)
  }

  /** A failed drain ends the watch: it fails, its connection is stopped, and once the stream has ended it is over,
      with nothing running; only an abort that made the failure does not count as one. */
  lemma FailureEndsTheWatch(s: Watcher, act: Act, threw: bool)
    requires Live(s) && Breaks(s, act) && s.connection.Online?
    ensures
      var caught := Next(Next(s, act), Catch(false));
      var idle := Next(caught, Finally);
      var over := Next(Next(idle, StreamEnds(threw)), Reconnect);
      && Next(s, act).drain == Exited(true)
      && caught.failed && caught.connection == Online(true) && caught.drain == Caught
      && idle.failed && idle.drain.Idle? && idle.passAt == s.passAt && idle.drainsRunning == s.drainsRunning - 1
      && over.connection == Over && over.drain.Idle? && !over.ready && over.failed
  {
  }

  /** An abort that reaches a running drain ends it without a failure, at its next await. */
  lemma AbortEndsTheDrain(s: Watcher, act: Act, isAbort: bool)
    requires s.aborted && !s.failed
    requires
      || (act == HandlingStops && s.drain.Handling?)
      || (act.Page? && !act.fails && s.drain.Paging? && s.drain.after <= act.next <= s.saved
          && (act.hasMore || act.next == s.saved))
      || (act.HandledAll? && !act.fails && s.drain.Handling? && (s.drain.hasMore ==> s.drain.after < s.drain.next))
    ensures
      var idle := Next(Next(Next(s, act), Catch(isAbort)), Finally);
      && Next(s, act).drain == Exited(false) && !idle.failed && idle.drain.Idle? && idle.passAt == s.passAt
      && idle.drainsRunning == s.drainsRunning - 1
  {
  }

  /** The error of an aborted await is no failure. */
  lemma AbortedErrorIsNoFailure(s: Watcher)
    requires s.aborted && s.drain.Exited?
    ensures Next(s, Catch(true)) == s.(drain := Caught)
  {
  }

  /** No pass can start: the watcher is aborted, or its failure was noticed. */
  predicate Ended(s: Watcher) { s.aborted || (s.failed && (s.drain.Idle? || s.drain.Caught?)) }

  /** What no act changes once no pass can start. */
  ghost predicate NothingStarted(s: Watcher, t: Watcher) {
    && t.passAt == s.passAt && (s.aborted ==> t.aborted) && (s.failed ==> t.failed)
    && t.drainsRunning <= s.drainsRunning && (s.drain.Idle? ==> t.drain.Idle?) && Ended(t)
  }

  lemma EndedDrainStep(s: Watcher, act: Act)
    requires Ended(s) && (act.Page? || act.HandledAll? || act.HandlingStops?)
    ensures NothingStarted(s, Next(s, act))
  {
  }

  lemma EndedCatchStep(s: Watcher, act: Act)
    requires Ended(s) && (act.Catch? || act.Finally?)
    ensures NothingStarted(s, Next(s, act))
  {
  }

  lemma EndedConnectionStep(s: Watcher, act: Act)
    requires Ended(s) && !(act.Page? || act.HandledAll? || act.HandlingStops? || act.Catch? || act.Finally?)
    ensures NothingStarted(s, Next(s, act))
  {
  }

  /** After an abort, or after a failure was noticed, no pass ever starts again, whatever happens. */
  lemma {:induction false} NoPassStartsAgain(s: Watcher, acts: seq<Act>)
    requires Ended(s)
    ensures NothingStarted(s, ExecFrom(s, acts))
    decreases |acts|
  {
    if acts != [] {
      var before, act := ExecFrom(s, acts[..|acts| - 1]), acts[|acts| - 1];
      NoPassStartsAgain(s, acts[..|acts| - 1]);
      hide Next;
      if act.Page? || act.HandledAll? || act.HandlingStops? { EndedDrainStep(before, act); }
      else if act.Catch? || act.Finally? { EndedCatchStep(before, act); }
      else { EndedConnectionStep(before, act); }
    }
  }

  function ExecFrom(s: Watcher, acts: seq<Act>): Watcher {
    if acts == [] then s else Next(ExecFrom(s, acts[..|acts| - 1]), acts[|acts| - 1])
  }

  // ---- Connections --------------------------------------------------------------------------------

  /** A renewed connection is opened again, and its first ready reconciles from the start. */
  lemma RenewalReconciles(s: Watcher)
    requires Live(s) && s.connection.Online? && s.drain.Idle?
    ensures
      var again := Next(Next(Next(s, Renew), StreamEnds(false)), Reconnect);
      var ready := Next(again, Ready);
      && again.connection == Online(false) && !again.ready && again.drain.Idle?
      && ready.ready && ready.drain == Paging(0) && ready.handled == [] && ready.passAt > ready.noticedAt > s.ticks
  {
  }

  /** An ended connection waits for the drain; then the watch goes on exactly if the connection was stopped by a
      renewal, without an error, a failure or an abort. */
  lemma GoesOnIff(s: Watcher, threw: bool)
    requires s.connection.Online?
    ensures
      var left := Next(s, StreamEnds(threw));
      var t := Next(left, Reconnect);
      && !left.ready && left.connection == Leaving(s.connection.stopped, threw) && left.drain == s.drain
      && (!s.drain.Idle? ==> t == left)
      && (s.drain.Idle? ==>
            && t.drain.Idle? && !t.ready
            && t.connection == if s.connection.stopped && !threw && Live(s) then Online(false) else Over)
  {
  }

  /** Stopping: a renewal, an abort and a failure stop an open connection, and an ended one they leave. */
  lemma WhatStops(s: Watcher)
    ensures Next(s, Renew) == s.(connection := if s.connection.Online? then Online(true) else s.connection)
    ensures Next(s, Abort) == Next(s, Renew).(aborted := true)
    ensures s.drain == Exited(true) && !s.aborted ==>
      Next(s, Catch(false)) == Next(s, Renew).(failed := true, drain := Caught)
  {
  }

  predicate QuietWhenOver(s: Watcher) {
    (s.connection.Over? ==> s.drain.Idle? && !s.ready) && (!s.connection.Online? ==> !s.ready)
  }

  lemma QuietDrainStep(s: Watcher, act: Act)
    requires QuietWhenOver(s) && (act.Page? || act.HandledAll? || act.HandlingStops? || act.Catch? || act.Finally?)
    ensures QuietWhenOver(Next(s, act))
  {
  }

  lemma QuietConnectionStep(s: Watcher, act: Act)
    requires QuietWhenOver(s) && !(act.Page? || act.HandledAll? || act.HandlingStops? || act.Catch? || act.Finally?)
    ensures QuietWhenOver(Next(s, act))
  {
  }

  /** In every run a watch that is over is quiet: nothing runs and nothing is heard. */
  lemma {:induction false} OverIsQuiet(acts: seq<Act>)
    ensures QuietWhenOver(Exec(acts))
  {
    if acts != [] {
      var before, act := Exec(acts[..|acts| - 1]), acts[|acts| - 1];
      OverIsQuiet(acts[..|acts| - 1]);
      hide Next;
      if act.Page? || act.HandledAll? || act.HandlingStops? || act.Catch? || act.Finally? {
        QuietDrainStep(before, act);
      } else {
        QuietConnectionStep(before, act);
      }
    }
  }

  /** The watcher starts listening, with nothing running, nothing noticed and nothing saved, and goes on act by act;
      a response that is saved is one more. */
  lemma StartsListening(acts: seq<Act>, act: Act)
    ensures Exec([]) == START && Exec(acts + [act]) == Next(Exec(acts), act)
    ensures Live(START) && !START.ready && !START.dirty && START.drain.Idle? && START.connection == Online(false)
    ensures START.saved == START.ticks == START.noticedAt == START.fullPassAt == 0 && START.fullPass == []
    ensures forall s :: Next(s, Save) == s.(saved := s.saved + 1)
  {
    assert (acts + [act])[..|acts|] == acts;
  }
}
