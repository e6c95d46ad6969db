/** savedResponse of scripts/home-feed/bridge.ts: finding one response by paging through a feed of responses,
    a thousand at a time. The pages are whatever the feed answers, request by request; the results about what
    is found are for an ordered feed that may grow between the requests. */
module HomeMirrorResponses {
  import opened Optional

  const PAGE := 1000

  /** Sequences are safe integers. */
  type Sequence = n: int | 0 <= n <= 9007199254740991
  const LAST: Sequence := 9007199254740991

  type Identity = string
  datatype Header = Header(sequence: Sequence, responseId: string, identity: Identity)

  /** The answer to the k-th page request, after a sequence. */
  type Pages = (nat, Sequence) -> seq<Header>

  datatype Saved = Found(header: Header) | Missing | Failed

  predicate IsFirst(headers: seq<Header>, responseId: string, i: nat)
    requires i < |headers|
  {
    headers[i].responseId == responseId && forall j :: 0 <= j < i ==> headers[j].responseId != responseId
  }

  /** page.find */
  method Find(page: seq<Header>, responseId: string) returns (index: Option<nat>)
    ensures index == FindIn(page, responseId)
  {
    for i := 0 to |page|
      invariant FindIn(page, responseId) == FindFrom(page, responseId, i)
    {
      if page[i].responseId == responseId { return Some(i); }
    }
    return None;
  }

  function FindFrom(page: seq<Header>, responseId: string, i: nat): (index: Option<nat>)
    requires i <= |page|
    ensures index.Some? ==> i <= index.value < |page| && page[index.value].responseId == responseId
    ensures index.Some? ==> forall j :: i <= j < index.value ==> page[j].responseId != responseId
    ensures index.None? ==> forall j :: i <= j < |page| ==> page[j].responseId != responseId
    decreases |page| - i
  {
    if i == |page| then None else if page[i].responseId == responseId then Some(i)
    else FindFrom(page, responseId, i + 1)
  }

  function FindIn(page: seq<Header>, responseId: string): Option<nat> { FindFrom(page, responseId, 0) }

  /** What paging on from a sequence finds, beginning with the k-th request, and how many requests it made.
      A full page that does not advance fails. */
  function Search(pages: Pages, k: nat, after: Sequence, identity: Identity, responseId: string): (Saved, nat)
    decreases LAST - after
  {
    var page := pages(k, after);
    match FindIn(page, responseId)
    case Some(i) => (if page[i].identity == identity then Found(page[i]) else Missing, k + 1)
    case None =>
      if |page| < PAGE then (Missing, k + 1)
      else
        var next := page[|page| - 1].sequence;
        if next <= after then (Failed, k + 1) else Search(pages, k + 1, next, identity, responseId)
  }

  // ---- How a search ends, page by page ------------------------------------------------------------

  ghost predicate Without(page: seq<Header>, responseId: string) {
    forall j :: 0 <= j < |page| ==> page[j].responseId != responseId
  }

  /** A full page without the id whose last sequence is past the one asked for. */
  ghost predicate Advances(page: seq<Header>, after: Sequence, responseId: string) {
    |page| >= 1000 && Without(page, responseId) && page[|page| - 1].sequence > after
  }

  /** `afters` are the sequences of the requests so far: the first one is 0, and every page but the last was a
      full one without the id that advanced to the next sequence. */
  ghost predicate Asked(pages: Pages, afters: seq<Sequence>, responseId: string) {
    afters != [] && afters[0] == 0
      && forall k: nat :: k < |afters| - 1 ==> GoesOn(pages, k, afters[k], afters[k + 1], responseId)
  }

  ghost predicate GoesOn(pages: Pages, k: nat, after: Sequence, next: Sequence, responseId: string) {
    var page := pages(k, after);
    Advances(page, after, responseId) && next == page[|page| - 1].sequence
  }

  function LastPage(pages: Pages, afters: seq<Sequence>): seq<Header>
    requires afters != []
  {
    pages(|afters| - 1, afters[|afters| - 1])
  }

  /** A full page without the id that does not advance. */
  ghost predicate Stuck(page: seq<Header>, after: Sequence, responseId: string) {
    |page| >= 1000 && Without(page, responseId) && page[|page| - 1].sequence <= after
  }

  /** The page ends the search with this answer. */
  ghost predicate Ends(page: seq<Header>, after: Sequence, identity: Identity, responseId: string, saved: Saved) {
    match saved
    case Found(h) =>
      h.identity == identity && exists i :: 0 <= i < |page| && page[i] == h && IsFirst(page, responseId, i)
    case Missing =>
      || (|page| < 1000 && Without(page, responseId))
      || exists i :: 0 <= i < |page| && IsFirst(page, responseId, i) && page[i].identity != identity
    case Failed => Stuck(page, after, responseId)
  }

  /** The search that asked for these sequences has ended with this answer. */
  ghost predicate SearchEnds(pages: Pages, afters: seq<Sequence>, identity: Identity, responseId: string, saved: Saved)
  {
    Asked(pages, afters, responseId) && Ends(LastPage(pages, afters), afters[|afters| - 1], identity, responseId, saved)
  }

  /** Full pages without the id advance to a full page without the id that does not. */
  ghost predicate GetsStuck(pages: Pages, afters: seq<Sequence>, responseId: string) {
    Asked(pages, afters, responseId) && Stuck(LastPage(pages, afters), afters[|afters| - 1], responseId)
  }

  /** Requests that agree up to a point go on alike. */
  lemma {:induction false} SameRequests(pages: Pages, a: seq<Sequence>, b: seq<Sequence>, responseId: string, k: nat)
    requires Asked(pages, a, responseId) && Asked(pages, b, responseId) && k < |a| && k < |b|
    ensures a[k] == b[k]
  {
    hide Advances;
    if k > 0 {
      SameRequests(pages, a, b, responseId, k - 1);
      assert GoesOn(pages, k - 1, a[k - 1], a[k - 1 + 1], responseId)
        && GoesOn(pages, k - 1, b[k - 1], b[k - 1 + 1], responseId);
    }
  }

  lemma AskedAdvances(pages: Pages, afters: seq<Sequence>, k: nat, responseId: string)
    requires Asked(pages, afters, responseId)
    ensures k < |afters| - 1 ==> Advances(pages(k, afters[k]), afters[k], responseId)
  {
    hide Advances;
    assert k < |afters| - 1 ==> GoesOn(pages, k, afters[k], afters[k + 1], responseId);
  }

  lemma EndedPageDoesNotAdvance(page: seq<Header>, after: Sequence, identity: Identity, responseId: string,
      saved: Saved)
    requires Ends(page, after, identity, responseId, saved)
    ensures !Advances(page, after, responseId)
  {
  }

  /** There is one way for a search to end. */
  lemma OneEnd(pages: Pages, a: seq<Sequence>, b: seq<Sequence>, identity: Identity, responseId: string, saved: Saved,
      other: Saved)
    requires SearchEnds(pages, a, identity, responseId, saved) && SearchEnds(pages, b, identity, responseId, other)
    ensures |a| == |b| && LastPage(pages, a) == LastPage(pages, b) && a[|a| - 1] == b[|b| - 1]
  {
    hide Ends, Advances;
    var k := if |a| <= |b| then |a| - 1 else |b| - 1;
    SameRequests(pages, a, b, responseId, k);
    EndedPageDoesNotAdvance(LastPage(pages, a), a[|a| - 1], identity, responseId, saved);
    EndedPageDoesNotAdvance(LastPage(pages, b), b[|b| - 1], identity, responseId, other);
    AskedAdvances(pages, a, k, responseId);
    AskedAdvances(pages, b, k, responseId);
  }

  lemma OneAnswer(page: seq<Header>, after: Sequence, identity: Identity, responseId: string, saved: Saved,
      other: Saved)
    requires Ends(page, after, identity, responseId, saved) && Ends(page, after, identity, responseId, other)
    ensures saved == other
  {
  }

  /** The answer is decided by the pages alone. */
  lemma OnlyAnswer(pages: Pages, afters: seq<Sequence>, identity: Identity, responseId: string, saved: Saved)
    requires SearchEnds(pages, afters, identity, responseId, saved)
    ensures forall b, other :: SearchEnds(pages, b, identity, responseId, other) ==> other == saved
  {
    hide Ends, GoesOn;
    forall b, other | SearchEnds(pages, b, identity, responseId, other) ensures other == saved {
      OneEnd(pages, afters, b, identity, responseId, saved, other);
      OneAnswer(LastPage(pages, afters), afters[|afters| - 1], identity, responseId, saved, other);
    }
  }

  lemma MoreAsked(pages: Pages, afters: seq<Sequence>, next: Sequence, responseId: string)
    requires Asked(pages, afters, responseId)
    requires var page := LastPage(pages, afters);
        Advances(page, afters[|afters| - 1], responseId) && next == page[|page| - 1].sequence
    ensures Asked(pages, afters + [next], responseId)
  {
    hide Advances;
    var more := afters + [next];
    forall k: nat | k < |more| - 1 ensures GoesOn(pages, k, more[k], more[k + 1], responseId) {
      if k < |afters| - 1 { assert GoesOn(pages, k, afters[k], afters[k + 1], responseId); }
    }
  }

  /** The loop, for whatever pages the feed answers: it ends, because every page that it goes on from
      advances, and it returns the one answer that the pages lead to. It fails exactly when full pages without
      the id advance to a full page without the id that does not. */
  method SavedResponse(pages: Pages, identity: Identity, responseId: string) returns (saved: Saved)
    ensures saved == Search(pages, 0, 0, identity, responseId).0
    ensures exists afters :: SearchEnds(pages, afters, identity, responseId, saved)
    ensures forall afters, answer :: SearchEnds(pages, afters, identity, responseId, answer) ==> answer == saved
    ensures saved.Failed? <==> exists afters :: GetsStuck(pages, afters, responseId)
  {
    var after: Sequence, k := 0, 0;
    ghost var afters: seq<Sequence> := [0];
    while true
      invariant Search(pages, 0, 0, identity, responseId) == Search(pages, k, after, identity, responseId)
      invariant |afters| == k + 1 && afters[k] == after && Asked(pages, afters, responseId)
      decreases LAST - after
    {
      hide GoesOn, IsFirst;
      var page := pages(k, after);
      assert page == LastPage(pages, afters);
      var index := Find(page, responseId);
      if index.Some? {
        saved := if page[index.value].identity == identity then Found(page[index.value]) else Missing;
        assert IsFirst(page, responseId, index.value);
        Decided(pages, afters, identity, responseId, saved);
        return;
      }
      assert Without(page, responseId);
      if |page| < PAGE {
        Decided(pages, afters, identity, responseId, Missing);
        return Missing;
      }
      var next := page[|page| - 1].sequence;
      if next <= after {
        Decided(pages, afters, identity, responseId, Failed);
        return Failed;
      }
      MoreAsked(pages, afters, next, responseId);
      afters := afters + [next];
      after, k := next, k + 1;
    }
  }

  lemma Decided(pages: Pages, afters: seq<Sequence>, identity: Identity, responseId: string, saved: Saved)
    requires SearchEnds(pages, afters, identity, responseId, saved)
    ensures forall b, answer :: SearchEnds(pages, b, identity, responseId, answer) ==> answer == saved
    ensures saved.Failed? <==> exists b :: GetsStuck(pages, b, responseId)
  {
    hide GoesOn, Stuck;
    OnlyAnswer(pages, afters, identity, responseId, saved);
    if saved.Failed? { assert GetsStuck(pages, afters, responseId); }
    forall b | GetsStuck(pages, b, responseId) ensures saved.Failed? {
      assert SearchEnds(pages, b, identity, responseId, Failed);
    }
  }

  // ---- What is found in an ordered, growing feed --------------------------------------------------

  /** Sequences start at one and strictly increase. */
  ghost predicate Ordered(headers: seq<Header>) {
    && (forall i :: 0 <= i < |headers| ==> headers[i].sequence > 0)
    && forall i, j :: 0 <= i < j < |headers| ==> headers[i].sequence < headers[j].sequence
  }

  /** The feed at each request: ordered, and only appended to. */
  ghost predicate Feed(feeds: nat -> seq<Header>) {
    forall k: nat :: Ordered(feeds(k)) && feeds(k) <= feeds(k + 1)
  }

  /** Every page is the next one of the feed as it is at that request. */
  ghost predicate Serves(pages: Pages, feeds: nat -> seq<Header>) {
    forall k: nat, after: Sequence :: pages(k, after) == NextPage(feeds(k), after)
  }

  /** How many headers have a sequence up to `after`. */
  function Skipped(headers: seq<Header>, after: Sequence): (n: nat)
    ensures n <= |headers|
    ensures forall i :: 0 <= i < n ==> headers[i].sequence <= after
    ensures n < |headers| ==> headers[n].sequence > after
  {
    if headers == [] || headers[0].sequence > after then 0 else 1 + Skipped(headers[1..], after)
  }

  /** A page of an ordered feed: the next headers after a sequence. */
  function NextPage(headers: seq<Header>, after: Sequence): seq<Header> {
    var rest := headers[Skipped(headers, after)..];
    if |rest| <= 1000 then rest else rest[..1000]
  }

  /** The first header of the id, if any, decides. */
  ghost predicate IsAnswer(headers: seq<Header>, identity: Identity, responseId: string, saved: Saved) {
    match saved
    case Found(h) =>
      h.identity == identity && exists i :: 0 <= i < |headers| && headers[i] == h && IsFirst(headers, responseId, i)
    case Missing =>
      || (forall i :: 0 <= i < |headers| ==> headers[i].responseId != responseId)
      || exists i :: 0 <= i < |headers| && IsFirst(headers, responseId, i) && headers[i].identity != identity
    case Failed => false
  }

  /** The page after the first n headers is what follows them. */
  lemma SkippedIs(headers: seq<Header>, n: nat, after: Sequence)
    requires Ordered(headers) && n <= |headers|
    requires (n > 0 ==> headers[n - 1].sequence == after) && (n == 0 ==> after == 0)
    ensures Skipped(headers, after) == n
  {
    var k := Skipped(headers, after);
    if n > 0 { assert forall i :: 0 <= i < n - 1 ==> headers[i].sequence < headers[n - 1].sequence; }
  }

  /** None of the first `seen` headers is the response. */
  ghost predicate NotAmong(headers: seq<Header>, seen: nat, responseId: string)
    requires seen <= |headers|
  {
    forall j :: 0 <= j < seen ==> headers[j].responseId != responseId
  }

  /** The page is a stretch of the feed. */
  ghost predicate Stretch(headers: seq<Header>, seen: nat, page: seq<Header>) {
    seen + |page| <= |headers| && page == headers[seen..seen + |page|]
  }

  /** The page after the first `seen` headers, as a stretch of the feed. */
  lemma PageIs(headers: seq<Header>, seen: nat, after: Sequence)
    requires seen <= |headers| && Skipped(headers, after) == seen
    ensures var n := if |headers| - seen <= 1000 then |headers| - seen else 1000;
            NextPage(headers, after) == headers[seen..seen + n]
  {
    hide Skipped;
  }

  lemma PageIsStretch(headers: seq<Header>, seen: nat, after: Sequence)
    requires Ordered(headers) && seen <= |headers|
    requires (seen > 0 ==> headers[seen - 1].sequence == after) && (seen == 0 ==> after == 0)
    ensures var page := NextPage(headers, after);
            && Stretch(headers, seen, page) && (|page| < 1000 ==> |headers| == seen + |page|)
            && (|page| > 0 ==> page[|page| - 1].sequence > after)
  {
    SkippedIs(headers, seen, after);
    PageIs(headers, seen, after);
    hide Skipped, NextPage, Ordered;
    var n := if |headers| - seen <= 1000 then |headers| - seen else 1000;
    StretchIs(headers, seen, n, NextPage(headers, after), after);
  }

  lemma StretchIs(headers: seq<Header>, seen: nat, n: nat, page: seq<Header>, after: Sequence)
    requires Ordered(headers) && seen + n <= |headers| && page == headers[seen..seen + n]
    requires (seen > 0 ==> headers[seen - 1].sequence == after) && (seen == 0 ==> after == 0)
    ensures Stretch(headers, seen, page) && |page| == n && (n > 0 ==> page[n - 1].sequence > after)
  {
    if n > 0 { assert page[n - 1] == headers[seen + n - 1]; }
  }

  lemma NotInStretch(headers: seq<Header>, seen: nat, page: seq<Header>, n: nat, responseId: string)
    requires Stretch(headers, seen, page) && NotAmong(headers, seen, responseId) && n <= |page|
    requires forall j :: 0 <= j < n ==> page[j].responseId != responseId
    ensures NotAmong(headers, seen + n, responseId)
  {
    forall j | 0 <= j < seen + n ensures headers[j].responseId != responseId {
      if j >= seen { assert headers[j] == page[j - seen]; }
    }
  }

  lemma FoundInStretch(headers: seq<Header>, seen: nat, page: seq<Header>, i: nat, identity: Identity,
      responseId: string)
    requires Stretch(headers, seen, page) && NotAmong(headers, seen, responseId) && i < |page|
    requires page[i].responseId == responseId && forall j :: 0 <= j < i ==> page[j].responseId != responseId
    ensures IsAnswer(headers, identity, responseId, if page[i].identity == identity then Found(page[i]) else Missing)
  {
    NotInStretch(headers, seen, page, i, responseId);
    assert headers[seen + i] == page[i] && IsFirst(headers, responseId, seen + i);
  }

  lemma GrownFeed(headers: seq<Header>, grown: seq<Header>, seen: nat, responseId: string)
    requires headers <= grown && seen <= |headers| && NotAmong(headers, seen, responseId)
    ensures NotAmong(grown, seen, responseId)
  {
  }

  /** Paging on after the first `seen` headers, none of which is the response. */
  lemma {:induction false} SearchFrom(pages: Pages, feeds: nat -> seq<Header>, k: nat, seen: nat, after: Sequence,
      identity: Identity, responseId: string)
    requires Feed(feeds) && Serves(pages, feeds) && seen <= |feeds(k)| && NotAmong(feeds(k), seen, responseId)
    requires (seen > 0 ==> feeds(k)[seen - 1].sequence == after) && (seen == 0 ==> after == 0)
    ensures var (saved, end) := Search(pages, k, after, identity, responseId);
            k < end && IsAnswer(feeds(end - 1), identity, responseId, saved)
    decreases LAST - after
  {
    hide Ordered, NextPage, NotAmong, IsAnswer;
    var headers, page := feeds(k), pages(k, after);
    PageIsStretch(headers, seen, after);
    match FindIn(page, responseId)
    case Some(i) =>
      FoundInStretch(headers, seen, page, i, identity, responseId);
    case None =>
      NotInStretch(headers, seen, page, |page|, responseId);
      if |page| < PAGE {
        NothingFound(headers, identity, responseId);
      } else {
        GrownFeed(headers, feeds(k + 1), seen + |page|, responseId);
        assert feeds(k + 1)[seen + |page| - 1] == page[|page| - 1];
        SearchFrom(pages, feeds, k + 1, seen + |page|, page[|page| - 1].sequence, identity, responseId);
      }
  }

  lemma NothingFound(headers: seq<Header>, identity: Identity, responseId: string)
    requires NotAmong(headers, |headers|, responseId)
    ensures IsAnswer(headers, identity, responseId, Missing)
  {
  }

  /** In an ordered feed that only grows, paging never fails, and it finds the response exactly when the first
      header of its id, in the whole feed as it was at the last request, has the caller's identity. */
  lemma SearchFindsFirst(pages: Pages, feeds: nat -> seq<Header>, identity: Identity, responseId: string)
    requires Feed(feeds) && Serves(pages, feeds)
    ensures var (saved, end) := Search(pages, 0, 0, identity, responseId);
            0 < end && IsAnswer(feeds(end - 1), identity, responseId, saved)
  {
    SearchFrom(pages, feeds, 0, 0, 0, identity, responseId);
  }
}
