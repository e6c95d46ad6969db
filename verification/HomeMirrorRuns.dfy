/** What an operation begun at any point of any run of the mirror leads to when it is then left alone: the results
    about single operations, as results about runs. */
module HomeMirrorRuns {
  import opened Optional
  import opened HomeMirror
  import opened HomeMirrorRecovery
  import opened HomeMirrorIssuance
  import opened HomeMirrorClosing
  import opened HomeMirrorForwarding

  /** A run starts with nothing stored, bound or delivered and no process, and goes on act by act. */
  lemma RunsGoOn(u: Upsert, acts: seq<Act>, act: Act)
    ensures var s := Exec(u, []);
            && s.procs == map[] && s.world.kv == map[] && s.world.db == map[] && s.world.history == []
            && s.world.sources == map[] && s.world.deliveries == []
    ensures Exec(u, acts + [act]) == Next(u, Exec(u, acts), act)
  {
    assert (acts + [act])[..|acts|] == acts;
  }

  /** The process makes n awaits with the same answer. */
  function Goes(p: nat, a: Answer, n: nat): seq<Act> { if n == 0 then [] else [Go(p, a)] + Goes(p, a, n - 1) }

  lemma SetTwice(procs: map<nat, Proc>, p: nat, q: Proc, r: Proc)
    ensures procs[p := q][p := r] == procs[p := r]
  {}

  /** A process left alone for n awaits moves as it does on its own, and no other process is touched. */
  lemma {:induction false} GoesAlone(u: Upsert, acts: seq<Act>, p: nat, a: Answer, n: nat)
    requires p in Exec(u, acts).procs
    ensures
      var s, t := Exec(u, acts), Exec(u, acts + Goes(p, a, n));
      var r := ForwardAlone(u, s.world, s.procs[p], a, n);
      t == State(r.0, s.procs[p := r.1])
    decreases n
  {
    hide ProcStep;
    var s := Exec(u, acts);
    if n == 0 {
      assert acts + [] == acts && s.procs[p := s.procs[p]] == s.procs;
    } else {
      RunsGoOn(u, acts, Go(p, a));
      GoesAlone(u, acts + [Go(p, a)], p, a, n - 1);
      UnrollForward(u, s.world, s.procs[p], a, n);
      assert acts + [Go(p, a)] + Goes(p, a, n - 1) == acts + Goes(p, a, n);
      var r := ProcStep(u, s.world, s.procs[p], a);
      SetTwice(s.procs, p, r.1, ForwardAlone(u, r.0, r.1, a, n - 1).1);
      hide Exec, ForwardAlone;
    }
  }

  lemma {:induction false} PublishingAlone(u: Upsert, w: World, q: Publisher, n: nat)
    ensures var r := Alone(w, q, n); ForwardAlone(u, w, Publishing(q), CALM, n) == (r.0, Publishing(r.1))
    decreases n
  {
    hide PublishStep;
    if n > 0 {
      Unroll(w, q, n);
      UnrollForward(u, w, Publishing(q), CALM, n);
      PublishingAlone(u, PublishStep(w, q, CALM).0, PublishStep(w, q, CALM).1, n - 1);
    }
  }

  lemma {:induction false} ClosingAlone(u: Upsert, w: World, c: Closer, a: Answer, n: nat)
    ensures var r := CloseAlone(u, w, c, a, n); ForwardAlone(u, w, Closing(c), a, n) == (r.0, Closing(r.1))
    decreases n
  {
    hide CloseStep;
    if n > 0 {
      UnrollClose(u, w, c, a, n);
      UnrollForward(u, w, Closing(c), a, n);
      ClosingAlone(u, CloseStep(u, w, c, a).0, CloseStep(u, w, c, a).1, a, n - 1);
    }
  }

  // ---- Results ------------------------------------------------------------------------------------

  /** A publication begun at any point of any run and then left alone issues what may be issued, and otherwise
      changes nothing. */
  lemma PublicationRuns(u: Upsert, acts: seq<Act>, p: nat, req: Request, n: nat)
    requires n == 10
    ensures
      var s, t := Exec(u, acts), Exec(u, acts + [Publish(p, req)] + Goes(p, CALM, n));
      var r := if MayIssue(s.world, req) then Issued(s.world, req) else (s.world, Stopped);
      t == State(r.0, s.procs[p := Publishing(r.1)])
  {
    var s := Exec(u, acts);
    RunsGoOn(u, acts, Publish(p, req));
    GoesAlone(u, acts + [Publish(p, req)], p, CALM, n);
    PublishingAlone(u, s.world, Registering(req), n);
    IssuesIff(s.world, req);
    hide Exec, Alone, ForwardAlone, MayIssue, Issued;
    SetTwice(s.procs, p, Publishing(Registering(req)), Publishing(Alone(s.world, Registering(req), n).1));
  }

  /** A close begun at any point of any run and then left alone with one answer closes what may be closed, and
      otherwise changes nothing. */
  lemma CloseRuns(u: Upsert, acts: seq<Act>, p: nat, rk: RowKey, a: Answer, n: nat)
    requires Grants(a) && n == 8
    ensures
      var s, t := Exec(u, acts), Exec(u, acts + [HomeMirror.Close(p, rk)] + Goes(p, a, n));
      var w := s.world;
      var r := if rk !in w.db || !CardIsCurrent(w.db[rk].binding, a) then (w, Closed(rk, None))
               else if Examined(u, w, rk, a).Permitting? then HomeMirrorClosing.Close(u, w, rk, a)
               else (w, Examined(u, w, rk, a));
      t == State(r.0, s.procs[p := Closing(r.1)])
  {
    var s := Exec(u, acts);
    RunsGoOn(u, acts, HomeMirror.Close(p, rk));
    GoesAlone(u, acts + [HomeMirror.Close(p, rk)], p, a, n);
    ClosingAlone(u, s.world, Loading(rk), a, n);
    ClosesAlone(u, s.world, rk, a);
    hide Exec, CloseAlone, ForwardAlone, Examined, HomeMirrorClosing.Close;
    SetTwice(s.procs, p, Closing(Loading(rk)), Closing(CloseAlone(u, s.world, Loading(rk), a, n).1));
  }

  /** A forward begun at any point of any run and then left alone with one answer delivers what it may, and ends. */
  lemma ForwardRuns(u: Upsert, acts: seq<Act>, p: nat, rk: RowKey, response: Response, a: Answer, n: nat)
    requires Grants(a) && n == 8
    ensures
      var s, t := Exec(u, acts), Exec(u, acts + [Forward(p, rk, response)] + Goes(p, a, n + 5));
      var w := s.world;
      var closed := CloseAlone(u, w, Loading(rk), a, n);
      var w' := if rk !in w.db then w
                else if !response.closes then Delivered(w, rk, response, None)
                else AfterClose(closed.0, w.db[rk].binding, response, closed.1);
      t == State(w', s.procs[p := Ended])
  {
    var s := Exec(u, acts);
    ReachableRowsAreKeyed(u, acts);
    RunsGoOn(u, acts, Forward(p, rk, response));
    GoesAlone(u, acts + [Forward(p, rk, response)], p, a, n + 5);
    ForwardsAlone(u, s.world, rk, response, a, n);
    hide Exec, CloseAlone, ForwardAlone, AfterClose, Delivered;
    SetTwice(s.procs, p, Finding(rk, response), Ended);
  }

  /** What the others do: an edit adds a version and makes it the head of its key, an erasure takes a head away, a
      registration replaces the sources, and a crash loses a process and nothing else. */
  lemma OthersAct(u: Upsert, s: State, p: nat, key: Key, bytes: Bytes, sources: map<nat, Source>)
    ensures
      var t, w := Next(u, s, Edit(key, bytes)), s.world;
      && t.procs == s.procs && t.world.db == w.db && t.world.sources == w.sources
      && t.world.deliveries == w.deliveries && t.world.kv == w.kv[key := |w.history|]
      && |t.world.history| == |w.history| + 1 && t.world.history[..|w.history|] == w.history
      && t.world.history[|w.history|].key == key && t.world.history[|w.history|].bytes == bytes
    ensures
      var t := Next(u, s, Erase(key));
      && t.procs == s.procs && t.world == s.world.(kv := t.world.kv)
      && forall k :: k in t.world.kv <==> k in s.world.kv && k != key
    ensures forall k :: k in Next(u, s, Erase(key)).world.kv ==> Next(u, s, Erase(key)).world.kv[k] == s.world.kv[k]
    ensures Next(u, s, Register(sources)) == s.(world := s.world.(sources := sources))
    ensures
      var t := Next(u, s, Crash(p));
      && t.world == s.world && p !in t.procs
      && forall q :: q in s.procs && q != p ==> q in t.procs && t.procs[q] == s.procs[q]
  {}
}
