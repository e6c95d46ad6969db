/** The event watcher of bridge.ts (watchHomeMirrors): one source consumer driven by ready/write
    notifications, with the closure flags `ready`, `dirty`, `draining` and `failed`. Each act is one
    await-to-await stretch or one microtask. Saved responses are numbered 1, 2, 3, ...

    Assumed of a delivery page read after sequence `after`: it ends at some `next` with
    after <= next <= the newest sequence, and a page without more responses ends at the newest one. */
module HomeMirrorWatch {

  datatype Drain =
    | Idle
    | Paging(after: nat)
    | Handling(after: nat, next: nat, hasMore: bool)
    | Exited(error: bool)
    | Caught

  datatype Connection = Online(stopped: bool) | Leaving(stopped: bool, threw: bool) | Over

  /** The responses of one page: those after `after` up to `next`. */
  datatype Stretch = Stretch(after: nat, next: nat)

  /** The first six fields are the program's; the rest only remember the run. `handled` and `fullPass` are the
      pages whose responses were all forwarded in the current pass and in the last full one. `ticks` counts accepted
      notifications and pass starts, so that `noticedAt`, `passAt` and `fullPassAt` (the starts of the
      last notification, pass and full pass) are comparable. */
  datatype Watcher = Watcher(
    aborted: bool, failed: bool, ready: bool, dirty: bool, drain: Drain, connection: Connection,
    saved: nat, ticks: nat, noticedAt: nat, savedAtNotice: nat, passAt: nat, savedAtPass: nat,
    fullPassAt: nat, offered: nat, drainsRunning: int, pages: nat, handled: seq<Stretch>, fullPass: seq<Stretch>)

  datatype Act =
    | Save
    | Ready
    | Event
    | Page(next: nat, hasMore: bool, fails: bool)
    | HandledAll(fails: bool)
    | HandlingStops
    | Catch(isAbort: bool)
    | Finally
    | Abort
    | Renew
    | StreamEnds(threw: bool)
    | Reconnect

  const START := Watcher(
    false, false, false, false, Idle, Online(false), 0, 0, 0, 0, 0, 0, 0, 0, 0, 0, [], [])

  /** The head of the do-while loop: a new pass starts from sequence 0 with `dirty` cleared. */
  function StartPass(s: Watcher): Watcher {
    s.(dirty := false, drain := Paging(0), ticks := s.ticks + 1, passAt := s.ticks + 1, savedAtPass := s.saved,
      pages := 0, handled := [])
  }

  function Schedule(s: Watcher): Watcher {
    if !s.ready || s.aborted || s.failed then s
    else if !s.drain.Idle? then s.(dirty := true)
    else StartPass(s.(dirty := true, drainsRunning := s.drainsRunning + 1))
  }

  /** `schedule()` called by a notification; it is accepted while the watcher is ready. */
  function Notify(s: Watcher): Watcher {
    Schedule(if s.ready then s.(ticks := s.ticks + 1, noticedAt := s.ticks + 1, savedAtNotice := s.saved) else s)
  }

  /** After the last forward of a page. */
  function PageDone(s: Watcher, after: nat, next: nat, hasMore: bool): Watcher {
    var done := s.(handled := s.handled + [Stretch(after, next)]);
    if hasMore && next <= after then done.(drain := Exited(true))
    else if hasMore then done.(pages := s.pages + 1, drain := if s.aborted then Exited(false) else Paging(next))
    else
      var full := done.(fullPassAt := s.passAt, offered := next, fullPass := done.handled);
      if full.dirty && !full.aborted then StartPass(full) else full.(drain := Exited(false))
  }

  function StopConnection(c: Connection): Connection { if c.Online? then Online(true) else c }

  function Next(s: Watcher, act: Act): Watcher {
    match act
    case Save => s.(saved := s.saved + 1)
    case Ready => if s.connection == Online(false) && !s.aborted then Notify(s.(ready := true)) else s
    case Event => if s.connection.Online? then Notify(s) else s
    case Page(next, hasMore, fails) =>
      if !s.drain.Paging? || next < s.drain.after || next > s.saved || (!hasMore && next != s.saved) then s
      else if fails then s.(drain := Exited(true))
      else if s.aborted then s.(drain := Exited(false))
      else s.(drain := Handling(s.drain.after, next, hasMore))
    case HandledAll(fails) =>
      if !s.drain.Handling? then s
      else if fails then s.(drain := Exited(true))
      else PageDone(s, s.drain.after, s.drain.next, s.drain.hasMore)
    case HandlingStops => if s.drain.Handling? && s.aborted then s.(drain := Exited(false)) else s
    case Catch(isAbort) =>
      if !s.drain.Exited? then s
      else if !s.drain.error || (s.aborted && isAbort) then s.(drain := Caught)
      else s.(drain := Caught, failed := true, connection := StopConnection(s.connection))
    case Finally =>
      if !s.drain.Caught? then s else
      var idle := s.(drain := Idle, drainsRunning := s.drainsRunning - 1);
      if idle.dirty && !idle.failed then Schedule(idle) else idle
    case Abort => s.(aborted := true, connection := StopConnection(s.connection))
    case Renew => s.(connection := StopConnection(s.connection))
    case StreamEnds(threw) =>
      if s.connection.Online? then s.(ready := false, connection := Leaving(s.connection.stopped, threw)) else s
    case Reconnect =>
      // `await draining`, then the loop condition of watchHomeMirrors.
      if !s.connection.Leaving? || !s.drain.Idle? then s
      else if s.connection.threw || s.failed || !s.connection.stopped || s.aborted then s.(connection := Over)
      else s.(connection := Online(false))
  }

  function Exec(acts: seq<Act>): Watcher {
    if acts == [] then START else Next(Exec(acts[..|acts| - 1]), acts[|acts| - 1])
  }

  /** The last notification was followed by the start of the current pass. */
  ghost predicate CoveredByPass(s: Watcher) { s.noticedAt < s.passAt && s.savedAtNotice <= s.savedAtPass }

  /** The last notification was followed by a pass that ran to its end. */
  ghost predicate CoveredByFullPass(s: Watcher) { s.noticedAt < s.fullPassAt && s.savedAtNotice <= s.offered }

  predicate In(n: nat, page: Stretch) { page.after < n <= page.next }

  predicate OnPage(pages: seq<Stretch>, n: nat) { exists i :: 0 <= i < |pages| && In(n, pages[i]) }

  /** Every response up to a sequence is on one of the pages. */
  ghost predicate OnPages(pages: seq<Stretch>, upTo: nat) { forall n: nat :: 0 < n <= upTo ==> OnPage(pages, n) }

  ghost predicate PagesOk(s: Watcher) {
    && OnPages(s.fullPass, s.offered)
    && (s.drain.Paging? || s.drain.Handling? ==> OnPages(s.handled, s.drain.after))
  }

  ghost predicate Bookkeeping(s: Watcher) {
    && PagesOk(s)
    && s.drainsRunning == (if s.drain.Idle? then 0 else 1)
    && (s.ready ==> s.connection.Online?)
    && s.noticedAt <= s.ticks && s.passAt <= s.ticks && s.fullPassAt <= s.passAt
    && s.savedAtNotice <= s.saved && s.savedAtPass <= s.saved && s.offered <= s.saved
    && (s.drain.Paging? ==> s.pages <= s.drain.after <= s.saved)
    && (s.drain.Handling? ==> s.pages <= s.drain.after <= s.drain.next <= s.saved)
    && (s.drain.Handling? && !s.drain.hasMore ==> s.savedAtPass <= s.drain.next)
  }

  /** Where the responsibility for the last notification lies at every point of a drain. */
  ghost predicate Covered(s: Watcher) {
    match s.drain
    case Idle => s.ready ==> !s.dirty && CoveredByFullPass(s)
    case Paging(_) => s.dirty || CoveredByPass(s)
    case Handling(_, _, _) => s.dirty || CoveredByPass(s)
    case Exited(error) => error || s.dirty || CoveredByFullPass(s)
    case Caught => s.dirty || CoveredByFullPass(s)
  }

  ghost predicate Inv(s: Watcher) { Bookkeeping(s) && (s.failed || s.aborted || Covered(s)) }

  lemma NotifyKeeps(s: Watcher)
    requires Bookkeeping(s) && (s.failed || s.aborted || Covered(s) || (s.ready && s.drain.Idle?))
    ensures Inv(Notify(s))
  {
    NothingOnPages([]);
    hide OnPages;
  }

  lemma OneMorePage(pages: seq<Stretch>, after: nat, next: nat)
    requires OnPages(pages, after)
    ensures OnPages(pages + [Stretch(after, next)], next)
  {
    var more := pages + [Stretch(after, next)];
    forall n: nat | 0 < n <= next ensures OnPage(more, n) {
      if n <= after {
        assert OnPage(pages, n);
        var i :| 0 <= i < |pages| && In(n, pages[i]);
        assert In(n, more[i]);
      } else {
        assert In(n, more[|pages|]);
      }
    }
  }

  lemma NothingOnPages(pages: seq<Stretch>)
    ensures OnPages(pages, 0)
  {
  }

  lemma MorePagesKeep(s: Watcher, after: nat, next: nat)
    requires Inv(s) && s.drain == Handling(after, next, true)
    ensures Inv(PageDone(s, after, next, true))
  {
    OneMorePage(s.handled, after, next);
    NothingOnPages([]);
    hide OnPages;
  }

  lemma LastPageKeeps(s: Watcher, after: nat, next: nat)
    requires Inv(s) && s.drain == Handling(after, next, false)
    ensures Inv(PageDone(s, after, next, false))
  {
    OneMorePage(s.handled, after, next);
    NothingOnPages([]);
    hide OnPages;
  }

  lemma PageDoneKeeps(s: Watcher, act: Act)
    requires Inv(s) && act.HandledAll?
    ensures Inv(Next(s, act))
  {
    hide PageDone;
    if s.drain.Handling? && !act.fails {
      if s.drain.hasMore { MorePagesKeep(s, s.drain.after, s.drain.next); }
      else { LastPageKeeps(s, s.drain.after, s.drain.next); }
    }
  }

  lemma FinallyKeeps(s: Watcher)
    requires Inv(s)
    ensures Inv(Next(s, Finally))
  {
    NothingOnPages([]);
    hide OnPages;
  }

  lemma PageKeeps(s: Watcher, act: Act)
    requires Inv(s) && act.Page?
    ensures Inv(Next(s, act))
  {
    hide OnPages;
  }

  lemma LeavingKeeps(s: Watcher, act: Act)
    requires Inv(s) && (act.HandlingStops? || act.Catch?)
    ensures Inv(Next(s, act))
  {
    hide OnPages;
  }

  lemma ConnectionKeeps(s: Watcher, act: Act)
    requires Inv(s) && (act.Save? || act.Abort? || act.Renew? || act.StreamEnds? || act.Reconnect?)
    ensures Inv(Next(s, act))
  {
    hide OnPages;
  }

  lemma NextKeeps(s: Watcher, act: Act)
    requires Inv(s)
    ensures Inv(Next(s, act))
  {
    if act.Page? {
      PageKeeps(s, act);
    } else if act.HandlingStops? || act.Catch? {
      LeavingKeeps(s, act);
    } else if act.Ready? {
      if s.connection == Online(false) && !s.aborted { NotifyKeeps(s.(ready := true)); }
    } else if act.Event? {
      NotifyKeeps(s);
    } else if act.HandledAll? {
      PageDoneKeeps(s, act);
    } else if act.Finally? {
      FinallyKeeps(s);
    } else {
      ConnectionKeeps(s, act);
    }
  }

  lemma {:induction false} Reachable(acts: seq<Act>)
    ensures Inv(Exec(acts))
  {
    if acts != [] {
      Reachable(acts[..|acts| - 1]);
      NextKeeps(Exec(acts[..|acts| - 1]), acts[|acts| - 1]);
    }
  }

  /** When the watcher is connected and ready, neither failed nor aborted, and no drain is under way, a full
      pass began after the last notification, and every response that had been saved when that notification
      arrived was on a page whose responses were all forwarded in that pass. */
  lemma QuietMeansDrained(acts: seq<Act>)
    requires var s := Exec(acts); s.ready && !s.failed && !s.aborted && s.drain.Idle?
    ensures
      var s := Exec(acts);
      && s.noticedAt < s.fullPassAt && s.savedAtNotice <= s.offered && !s.dirty
      && forall n: nat :: 0 < n <= s.savedAtNotice ==> OnPage(s.fullPass, n)
  {
    Reachable(acts);
  }

  /** At most one drain runs at any time, across reconnections too. */
  lemma OneDrainAtATime(acts: seq<Act>)
    ensures 0 <= Exec(acts).drainsRunning <= 1
  {
    Reachable(acts);
  }

  /** A notification that arrives after the drain loop has exited but before its `finally` runs is not
      lost: if the watcher is still ready when `finally` runs, a new pass starts there and then. */
  lemma LateNotificationIsServed(acts: seq<Act>)
    requires var s := Exec(acts); s.ready && !s.failed && !s.aborted && (s.drain == Exited(false) || s.drain == Caught)
    ensures
      var noticed := Next(Exec(acts), Event);
      var after := Next(Next(noticed, Catch(false)), Finally);
      noticed.drain == Exec(acts).drain && after.drain == Paging(0)
        && after.noticedAt == noticed.noticedAt < after.passAt
      && after.savedAtPass == after.savedAtNotice == Exec(acts).saved
  {
    Reachable(acts);
  }

  /** Within one pass the number of pages that announce more never exceeds the newest sequence: the page
      sequence strictly increases, so every pass over a bounded log ends. */
  lemma PassTerminates(acts: seq<Act>)
    requires var d := Exec(acts).drain; d.Paging? || d.Handling?
    ensures var s := Exec(acts); s.pages <= s.drain.after <= s.saved
  {
    Reachable(acts);
  }
}
