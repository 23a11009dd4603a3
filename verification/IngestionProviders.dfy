/**
 Which providers keep the `fetch` contract that the no-loss theorems ask for: those that list everything
 again, those that resume a listing from the place their cursor names, and, not always, the one that
 resumes at a place counted in another list than the one it is reading.
 */
module IngestionProviders {
  import opened Options
  import opened Connectors
  import opened Ingestion
  import opened IngestionSafety
  import opened IngestionProgress

  // ------------------------------------------------- starting over every time

  /** Whatever cursor the provider is asked from, one attempt by itself yields all it claims. */
  ghost predicate Restarts(source: set<Record>, attempt: Attempt)
  {
    forall start: Cursor :: Honest(source, start.watermark, {}, attempt.fetch(start))
  }

  lemma {:induction false} HonestIsMonotone(source: set<Record>, start: Option<int>, yielded: set<Record>,
                                            more: set<Record>, steps: seq<FetchStep>)
    requires yielded <= more && Honest(source, start, yielded, steps)
    ensures Honest(source, start, more, steps)
    decreases |steps|
  {
    if steps != [] && steps[0].Yields? {
      var records := set r | r in steps[0].page.records;
      HonestIsMonotone(source, start, yielded + records, more + records, steps[1..]);
    }
  }

  lemma {:induction false} RestartingRetryIsHonest(cfg: Config, source: set<Record>, covered: set<Record>, live: Live,
                                                   attempts: seq<Attempt>)
    requires forall i :: 0 <= i < |attempts| ==> Restarts(source, attempts[i])
    ensures HonestRetry(cfg, source, covered, live, attempts)
    decreases |attempts|
  {
    hide DrainAttempt, AttemptFinished;
    if attempts != [] {
      var start := EffectiveStart(live.run.cursor, cfg.overlap);
      assert Restarts(source, attempts[0]);
      HonestIsMonotone(source, start.watermark, {}, covered, attempts[0].fetch(start));
      RestartingRetryIsHonest(cfg, source, covered + AttemptFinished(cfg, live, attempts[0]),
                              DrainAttempt(cfg, live, attempts[0]).live, attempts[1..]);
    }
  }

  /** Providers that start over in every attempt are honest over every history. */
  lemma {:induction false} RestartingProvidersAreHonest(cfg: Config, source: set<Record>, w: World,
                                                        scripts: seq<RunScript>)
    requires forall i, j :: 0 <= i < |scripts| && 0 <= j < |scripts[i].attempts| ==>
               Restarts(source, scripts[i].attempts[j])
    ensures HonestHistory(cfg, source, w, scripts)
    decreases |scripts|
  {
    hide Restarts, HonestRetry, Covered, AfterRun;
    if scripts != [] {
      var n := |scripts| - 1;
      RestartingProvidersAreHonest(cfg, source, w, scripts[..n]);
      RestartingRetryIsHonest(cfg, source, Covered(cfg, source, w, scripts[..n]), Begin(History(cfg, w, scripts[..n])),
                              scripts[n].attempts);
    }
  }

  // ------------------------------------------------------ resuming a listing

  /** A listing in a fixed order, and the place in it that a cursor names. */
  datatype Listing = Listing(items: seq<Record>, place: Cursor -> nat) {
    /** The records of the source that stand before the given place. */
    function Before(source: set<Record>, n: nat): set<Record>
    {
      set i, r | 0 <= i < n && i < |items| && r == items[i] && r in source :: r
    }

    /** The place is the provider's own: a fresh cursor is at the start, and the watermark says nothing of it. */
    ghost predicate KeepsPlace()
    {
      && place(FRESH) == 0
      && forall c: Cursor, mark: Option<int> :: place(c.(watermark := mark)) == place(c)
    }
  }

  /**
   The pages follow one another in the listing, each cursor names a place no further than its page's
   end, and each watermark covers only what the listing holds up to there.
   */
  ghost predicate ListsOn(source: set<Record>, l: Listing, start: Option<int>, at: nat, steps: seq<FetchStep>)
    decreases |steps|
  {
    if steps == [] || steps[0].Raises? then true
    else
      var page := steps[0].page;
      var end := at + |page.records|;
      && end <= |l.items| && page.records == l.items[at..end]
      && l.place(page.cursor) <= end
      && (forall r :: r in source && After(start, r) && UpTo(page.cursor.watermark, r) ==> r in l.Before(source, end))
      && ListsOn(source, l, start, end, steps[1..])
  }

  /** The provider lists on from the place named by whatever cursor it is asked from. */
  ghost predicate Resumes(source: set<Record>, l: Listing, attempt: Attempt)
  {
    forall start: Cursor :: ListsOn(source, l, start.watermark, l.place(start), attempt.fetch(start))
  }

  lemma BeforeGrows(source: set<Record>, l: Listing, at: nat, end: nat)
    requires at <= end <= |l.items|
    ensures l.Before(source, end) <= l.Before(source, at) + (set r | r in l.items[at..end])
    ensures forall n: nat :: n <= end ==> l.Before(source, n) <= l.Before(source, end)
  {
    forall r | r in l.Before(source, end) ensures r in l.Before(source, at) || r in l.items[at..end] {
      var i: nat :| i < end && r == l.items[i];
      if at <= i { assert l.items[at..end][i - at] == r; }
    }
  }

  /** Listing on is honest where everything listed before has been made durable. */
  lemma {:induction false} ListingIsHonest(source: set<Record>, l: Listing, start: Option<int>, at: nat,
                                           yielded: set<Record>, steps: seq<FetchStep>)
    requires ListsOn(source, l, start, at, steps)
    requires forall r :: r in l.Before(source, at) && After(start, r) ==> r in yielded
    ensures Honest(source, start, yielded, steps)
    decreases |steps|
  {
    hide Listing.Before;
    if steps != [] && steps[0].Yields? {
      var records := steps[0].page.records;
      var end := at + |records|;
      BeforeGrows(source, l, at, end);
      ListingIsHonest(source, l, start, end, yielded + (set r | r in records), steps[1..]);
    }
  }

  /** Whatever is listed before the last committed place has been made durable. */
  ghost predicate AtPlace(source: set<Record>, l: Listing, covered: set<Record>, live: Live)
  {
    Coherent(live) && l.Before(source, l.place(live.run.cursor)) <= covered
  }

  lemma OnePageCursor(cfg: Config, live: Live, floor: Option<int>, stats: Stats, page: FetchPage, answers: Answers)
    ensures var p := OnePage(cfg, live, floor, stats, page, answers);
            || (p.live.world.stored == live.world.stored && p.live.run.cursor == live.run.cursor)
            || (p.stop.None? && p.live.world.stored == Some(p.live.run.cursor) &&
                p.live.run.cursor == GuardWatermark(page.cursor, floor))
  {
    hide Sift, ArchiveAll, Acked, PublishStop;
  }

  lemma {:induction false} ListingDrain(cfg: Config, source: set<Record>, l: Listing, covered: set<Record>, live: Live,
                                        start: Option<int>, floor: Option<int>, stats: Stats, at: nat,
                                        steps: seq<FetchStep>)
    requires l.KeepsPlace() && ListsOn(source, l, start, at, steps)
    requires AtPlace(source, l, covered, live) && l.Before(source, at) <= covered
    ensures var p := Drain(cfg, live, floor, stats, steps);
            AtPlace(source, l, covered + Finished(cfg, live, floor, stats, steps), p.live)
    decreases |steps|
  {
    hide OnePage, SiftPage, Tally, Listing.Before;
    if steps != [] && steps[0].Yields? {
      var page, answers := steps[0].page, steps[0].answers;
      var end := at + |page.records|;
      BeforeGrows(source, l, at, end);
      OnePageCursor(cfg, live, floor, stats, page, answers);
      var p := OnePage(cfg, live, floor, stats, page, answers);
      var stats' := Tally(stats, page, SiftPage(cfg, live.world, page, answers));
      var guarded := GuardWatermark(page.cursor, floor);
      assert guarded == page.cursor.(watermark := guarded.watermark) && l.place(guarded) == l.place(page.cursor);
      if p.stop.None? && !BudgetExhausted(cfg, stats') {
        var more := covered + (set r | r in page.records);
        assert AtPlace(source, l, more, p.live);
        ListingDrain(cfg, source, l, more, p.live, start, floor, stats', end, steps[1..]);
        assert more + Finished(cfg, p.live, floor, stats', steps[1..])
            == covered + Finished(cfg, live, floor, stats, steps);
      }
    }
  }

  lemma ListingAttempt(cfg: Config, source: set<Record>, l: Listing, covered: set<Record>, live: Live, attempt: Attempt)
    requires l.KeepsPlace() && Resumes(source, l, attempt) && AtPlace(source, l, covered, live)
    ensures HonestAttempt(cfg, source, covered, live, attempt)
    ensures AtPlace(source, l, covered + AttemptFinished(cfg, live, attempt), DrainAttempt(cfg, live, attempt).live)
  {
    hide Drain, Finished, Listing.Before;
    var run := live.run.(attemptStats := NO_STATS);
    var start := EffectiveStart(run.cursor, cfg.overlap);
    assert start == FRESH || start == run.cursor.(watermark := start.watermark);
    assert l.place(start) <= l.place(run.cursor);
    BeforeIsMonotone(source, l, l.place(start), l.place(run.cursor));
    ListingIsHonest(source, l, start.watermark, l.place(start), covered, attempt.fetch(start));
    ListingDrain(cfg, source, l, covered, live.(run := run), start.watermark, WatermarkFloor(run.cursor), NO_STATS,
                 l.place(start), attempt.fetch(start));
  }

  lemma BeforeIsMonotone(source: set<Record>, l: Listing, m: nat, n: nat)
    requires m <= n
    ensures l.Before(source, m) <= l.Before(source, n)
  {
  }

  lemma {:induction false} ListingRetry(cfg: Config, source: set<Record>, l: Listing, covered: set<Record>, live: Live,
                                        attempts: seq<Attempt>)
    requires l.KeepsPlace() && AtPlace(source, l, covered, live)
    requires forall i :: 0 <= i < |attempts| ==> Resumes(source, l, attempts[i])
    ensures HonestRetry(cfg, source, covered, live, attempts)
    ensures AtPlace(source, l, covered + RetryFinished(cfg, live, attempts), Retry(cfg, live, attempts).live)
    decreases |attempts|
  {
    hide DrainAttempt, AttemptFinished, HonestAttempt, AtPlace, Resumes;
    if attempts == [] {
      assert covered + {} == covered;
    } else {
      ListingAttempt(cfg, source, l, covered, live, attempts[0]);
      var p, finished := DrainAttempt(cfg, live, attempts[0]), AttemptFinished(cfg, live, attempts[0]);
      if p.stop == Some(Failed(Transient)) && |attempts| > 1 {
        ListingRetry(cfg, source, l, covered + finished, p.live, attempts[1..]);
        assert covered + finished + RetryFinished(cfg, p.live, attempts[1..])
            == covered + (finished + RetryFinished(cfg, p.live, attempts[1..]));
      } else {
        assert covered + (finished + {}) == covered + finished;
      }
    }
  }

  /** A run leaves in the store the place it reached. */
  lemma BeginResumes(cfg: Config, source: set<Record>, l: Listing, covered: set<Record>, w: World, script: RunScript)
    requires AtPlace(source, l, covered, Retry(cfg, Begin(w), script.attempts).live)
    ensures AtPlace(source, l, covered, Begin(AfterRun(cfg, w, script)))
  {
    hide Retry, Listing.Before;
  }

  lemma {:induction false} ListingHistory(cfg: Config, source: set<Record>, l: Listing, w: World,
                                          scripts: seq<RunScript>)
    requires l.KeepsPlace() && AtPlace(source, l, Covered(cfg, source, w, []), Begin(w))
    requires forall i, j :: 0 <= i < |scripts| && 0 <= j < |scripts[i].attempts| ==>
               Resumes(source, l, scripts[i].attempts[j])
    ensures HonestHistory(cfg, source, w, scripts)
    ensures AtPlace(source, l, Covered(cfg, source, w, scripts), Begin(History(cfg, w, scripts)))
    decreases |scripts|
  {
    hide Retry, RetryFinished, HonestRetry, AfterRun, AtPlace, Resumes, Begin;
    if scripts != [] {
      var n := |scripts| - 1;
      ListingHistory(cfg, source, l, w, scripts[..n]);
      var covered, before := Covered(cfg, source, w, scripts[..n]), History(cfg, w, scripts[..n]);
      ListingRetry(cfg, source, l, covered, Begin(before), scripts[n].attempts);
      BeginResumes(cfg, source, l, covered + RetryFinished(cfg, Begin(before), scripts[n].attempts), before,
                   scripts[n]);
    }
  }

  /**
   Providers that resume where the committed cursor says, as the page budget counts on, are honest over
   every history: budgets, retries, crashes and refused commits included.
   */
  lemma ResumingProvidersAreHonest(cfg: Config, source: set<Record>, l: Listing, w: World, scripts: seq<RunScript>)
    requires l.KeepsPlace()
    requires forall r :: r in l.Before(source, l.place(Begin(w).run.cursor)) ==> !After(StoredMark(w), r)
    requires forall i, j :: 0 <= i < |scripts| && 0 <= j < |scripts[i].attempts| ==>
               Resumes(source, l, scripts[i].attempts[j])
    ensures HonestHistory(cfg, source, w, scripts)
  {
    forall r | r in l.Before(source, l.place(Begin(w).run.cursor)) ensures r in Covered(cfg, source, w, []) {
      assert r in source;
    }
    ListingHistory(cfg, source, l, w, scripts);
  }

  // -------------------------------------------------------- paging by offset

  /** No two of the records happened at the same instant, and they are in order. */
  ghost predicate InOrder(items: seq<Record>)
  {
    forall i, j :: 0 <= i < j < |items| ==> items[i].time < items[j].time
  }

  function Elements(items: seq<Record>): set<Record>
  {
    set r | r in items
  }

  /** The latest event time of a page. */
  function Latest(records: seq<Record>): (latest: int)
    requires records != []
    ensures forall r :: r in records ==> r.time <= latest
    ensures exists r :: r in records && r.time == latest
  {
    var n := |records| - 1;
    if n == 0 then records[0].time
    else
      var before := Latest(records[..n]);
      if records[n].time > before then records[n].time else before
  }

  /** The offset in a checkpoint, written as that many strokes; 0 when there is none. */
  function OffsetOf(field: string, cursor: Cursor): nat
  {
    if field in cursor.checkpoint then |cursor.checkpoint[field]| else 0
  }

  function AtOffset(field: string, version: int, watermark: int, offset: nat): Cursor
  {
    Cursor(version, Some(watermark), None, map[field := seq(offset, _ => '1')])
  }

  function PageEnd(items: seq<Record>, size: nat, at: nat): (end: nat)
    requires size > 0 && at < |items|
    ensures at < end <= |items|
  {
    if at + size <= |items| then at + size else |items|
  }

  function PageAt(field: string, version: int, items: seq<Record>, size: nat, at: nat): FetchPage
    requires size > 0 && at < |items|
  {
    var end := PageEnd(items, size, at);
    FetchPage(items[at..end], AtOffset(field, version, Latest(items[at..end]), end))
  }

  /** How one request ends: with a page, made durable as the answers say, or with an exception. */
  datatype Reply = Serves(answers: Answers) | Fails(stop: Stop)

  /** The paging loop: pages of the list from `at` on, each cursor naming the offset behind its page. */
  function OffsetSteps(field: string, version: int, items: seq<Record>, size: nat, at: nat, replies: seq<Reply>)
    : seq<FetchStep>
    requires size > 0
    decreases |replies|
  {
    if at >= |items| || replies == [] then []
    else
      match replies[0]
      case Fails(stop) => [Raises(stop)]
      case Serves(answers) =>
        [Yields(PageAt(field, version, items, size, at), answers)] +
        OffsetSteps(field, version, items, size, PageEnd(items, size, at), replies[1..])
  }

  function ByOffset(field: string, items: seq<Record>): Listing
  {
    Listing(items, (c: Cursor) => OffsetOf(field, c))
  }

  lemma LatestIsLast(items: seq<Record>, at: nat, end: nat)
    requires InOrder(items) && at < end <= |items|
    ensures Latest(items[at..end]) == items[end - 1].time
  {
    hide Latest;
    var page := items[at..end];
    var last :| last in page && last.time == Latest(page);
    var j :| 0 <= j < |page| && page[j] == last;
    assert items[at + j] == last && page[|page| - 1] == items[end - 1] && items[end - 1] in page;
  }

  /** In order, a page's watermark covers what is listed up to the page's end and no more. */
  lemma PageCovers(items: seq<Record>, at: nat, end: nat, i: nat)
    requires InOrder(items) && at < end <= |items| && i < |items|
    ensures items[i].time <= Latest(items[at..end]) <==> i < end
  {
    LatestIsLast(items, at, end);
    hide Latest;
  }

  lemma IsBefore(source: set<Record>, l: Listing, n: nat, i: nat)
    requires i < n && i < |l.items| && l.items[i] in source
    ensures l.items[i] in l.Before(source, n)
  {
  }

  lemma PageIsListed(source: set<Record>, field: string, version: int, items: seq<Record>, size: nat,
                     start: Option<int>, at: nat)
    requires size > 0 && InOrder(items) && at < |items|
    requires forall r :: r in source && After(start, r) ==> r in items
    ensures var l, end := ByOffset(field, items), PageEnd(items, size, at);
            var page := PageAt(field, version, items, size, at);
            && at + |page.records| == end && page.records == items[at..end] && l.place(page.cursor) == end
            && forall r :: r in source && After(start, r) && UpTo(page.cursor.watermark, r) ==>
                 r in l.Before(source, end)
  {
    hide Latest, InOrder, Listing.Before;
    var end, l := PageEnd(items, size, at), ByOffset(field, items);
    var page := PageAt(field, version, items, size, at);
    forall r | r in source && After(start, r) && UpTo(page.cursor.watermark, r) ensures r in l.Before(source, end) {
      var i :| 0 <= i < |items| && items[i] == r;
      PageCovers(items, at, end, i);
      IsBefore(source, l, end, i);
    }
  }

  lemma {:induction false} OffsetsListOn(source: set<Record>, field: string, version: int, items: seq<Record>,
                                         size: nat, start: Option<int>, at: nat, replies: seq<Reply>)
    requires size > 0 && InOrder(items)
    requires forall r :: r in source && After(start, r) ==> r in items
    ensures ListsOn(source, ByOffset(field, items), start, at, OffsetSteps(field, version, items, size, at, replies))
    decreases |replies|
  {
    hide InOrder, Listing.Before, PageAt, PageEnd, ByOffset;
    var steps := OffsetSteps(field, version, items, size, at, replies);
    if at < |items| && replies != [] && replies[0].Serves? {
      var end := PageEnd(items, size, at);
      PageIsListed(source, field, version, items, size, start, at);
      OffsetsListOn(source, field, version, items, size, start, end, replies[1..]);
      assert steps[0].page == PageAt(field, version, items, size, at);
      assert steps[1..] == OffsetSteps(field, version, items, size, end, replies[1..]);
      assert ByOffset(field, items).items == items by { OffsetListItems(field, items); }
    }
  }

  lemma OffsetListItems(field: string, items: seq<Record>)
    ensures ByOffset(field, items).items == items
  {
  }

  /** A record before the offset that was not made durable is claimed by the first page's watermark all the same. */
  lemma SkippingIsDishonest(source: set<Record>, field: string, version: int, items: seq<Record>, size: nat,
                            start: Option<int>, at: nat, yielded: set<Record>, replies: seq<Reply>, r: Record)
    requires size > 0 && InOrder(items) && at < |items| && replies != [] && replies[0].Serves?
    requires r in items[..at] && r in source && After(start, r) && r !in yielded
    ensures !Honest(source, start, yielded, OffsetSteps(field, version, items, size, at, replies))
  {
    hide InOrder, Latest, PageEnd;
    var page, end := PageAt(field, version, items, size, at), PageEnd(items, size, at);
    var i :| 0 <= i < at && items[..at][i] == r;
    PageCovers(items, at, end, i);
    NotOnALaterPage(items, at, end, i);
    assert r !in yielded + (set x | x in page.records);
    assert UpTo(page.cursor.watermark, r);
  }

  lemma NotOnALaterPage(items: seq<Record>, at: nat, end: nat, i: nat)
    requires InOrder(items) && i < at <= end <= |items|
    ensures items[i] !in items[at..end]
  {
  }

  /** The arXiv connector: one fixed list, oldest first, and an offset into it. */
  function ArxivAttempt(items: seq<Record>, size: nat, replies: seq<Reply>): Attempt
    requires size > 0
  {
    Attempt((start: Cursor) =>
              OffsetSteps("start", start.version, items, size, OffsetOf("start", start), replies))
  }

  lemma ArxivResumes(items: seq<Record>, size: nat, replies: seq<Reply>)
    requires size > 0 && InOrder(items)
    ensures var l := ByOffset("start", items);
            l.KeepsPlace() && Resumes(Elements(items), l, ArxivAttempt(items, size, replies))
  {
    var source := Elements(items);
    forall start: Cursor
      ensures ListsOn(source, ByOffset("start", items), start.watermark, OffsetOf("start", start),
                      ArxivAttempt(items, size, replies).fetch(start))
    {
      OffsetsListOn(source, "start", start.version, items, size, start.watermark, OffsetOf("start", start), replies);
    }
  }

  ghost predicate IsArxiv(items: seq<Record>, attempt: Attempt)
  {
    exists size: nat, replies :: size > 0 && attempt == ArxivAttempt(items, size, replies)
  }

  /** Whatever page sizes, budgets, failures and crashes its runs meet, the arXiv connector is honest. */
  lemma ArxivIsHonest(cfg: Config, items: seq<Record>, w: World, scripts: seq<RunScript>)
    requires InOrder(items) && w.stored.None?
    requires forall i, j :: 0 <= i < |scripts| && 0 <= j < |scripts[i].attempts| ==>
               IsArxiv(items, scripts[i].attempts[j])
    ensures HonestHistory(cfg, Elements(items), w, scripts)
  {
    hide HonestHistory, ArxivAttempt, Resumes;
    var l := ByOffset("start", items);
    ArxivResumes(items, 1, []);
    forall i, j | 0 <= i < |scripts| && 0 <= j < |scripts[i].attempts|
      ensures Resumes(Elements(items), l, scripts[i].attempts[j])
    {
      var size: nat, replies :| size > 0 && scripts[i].attempts[j] == ArxivAttempt(items, size, replies);
      ArxivResumes(items, size, replies);
    }
    ResumingProvidersAreHonest(cfg, Elements(items), l, w, scripts);
  }

  /** Such a provider does not start over: the contract that asks every attempt to re-yield all is not its contract. */
  lemma ArxivDoesNotRestart(items: seq<Record>, size: nat, replies: seq<Reply>)
    requires size > 0 && |items| > size && InOrder(items) && replies != [] && replies[0].Serves?
    ensures !Restarts(Elements(items), ArxivAttempt(items, size, replies))
  {
    var source, start := Elements(items), FRESH.(checkpoint := map["start" := seq(size, _ => '1')]);
    var steps := ArxivAttempt(items, size, replies).fetch(start);
    assert OffsetOf("start", start) == size && steps != [] && steps[0].Yields?;
    SkippingIsDishonest(source, "start", start.version, items, size, None, size, {}, replies, items[0]);
  }

  // ------------------------------------------ an offset into a narrowed list

  /** What JQL lists for `updated >= bound`. */
  function UpdatedSince(items: seq<Record>, bound: int): seq<Record>
  {
    if items == [] then []
    else if items[0].time >= bound then [items[0]] + UpdatedSince(items[1..], bound)
    else UpdatedSince(items[1..], bound)
  }

  /** A JQL date says the minute. */
  function MinuteOf(time: int, minute: nat): int
    requires minute > 0
  {
    time - time % minute
  }

  /** The list the Jira connector pages through: everything, or what was updated since the minute of the watermark. */
  function JiraWindow(issues: seq<Record>, minute: nat, mark: Option<int>): seq<Record>
    requires minute > 0
  {
    if mark.None? then issues else UpdatedSince(issues, MinuteOf(mark.value, minute))
  }

  /** The Jira connector: the list narrowed by the watermark, and the offset counted in the list before. */
  function JiraAttempt(issues: seq<Record>, minute: nat, size: nat, replies: seq<Reply>): Attempt
    requires minute > 0 && size > 0
  {
    Attempt((start: Cursor) =>
              OffsetSteps("start_at", start.version, JiraWindow(issues, minute, start.watermark), size,
                          OffsetOf("start_at", start), replies))
  }

  lemma {:induction false} UpdatedSinceFilters(items: seq<Record>, bound: int)
    requires InOrder(items)
    ensures InOrder(UpdatedSince(items, bound))
    ensures forall r :: r in UpdatedSince(items, bound) <==> r in items && r.time >= bound
  {
    if items != [] {
      var rest := UpdatedSince(items[1..], bound);
      UpdatedSinceFilters(items[1..], bound);
      forall r | r in rest ensures items[0].time < r.time {
        var i :| 0 <= i < |items[1..]| && items[1..][i] == r;
        assert items[i + 1] == r;
      }
    }
  }

  /**
   Exactly when the Jira connector keeps the contract: everything its offset skips in the narrowed list
   must have been made durable before, or there is nothing behind the offset.
   */
  lemma JiraIsHonestIff(issues: seq<Record>, minute: nat, size: nat, replies: seq<Reply>, start: Cursor,
                        covered: set<Record>)
    requires minute > 0 && size > 0 && InOrder(issues)
    ensures var window, at := JiraWindow(issues, minute, start.watermark), OffsetOf("start_at", start);
            Honest(Elements(issues), start.watermark, covered,
                   JiraAttempt(issues, minute, size, replies).fetch(start))
            <==> (at < |window| && replies != [] && replies[0].Serves? ==>
                    forall r :: r in window[..at] && After(start.watermark, r) ==> r in covered)
  {
    var source, window := Elements(issues), JiraWindow(issues, minute, start.watermark);
    var at, l := OffsetOf("start_at", start), ByOffset("start_at", window);
    var steps := JiraAttempt(issues, minute, size, replies).fetch(start);
    if start.watermark.Some? {
      UpdatedSinceFilters(issues, MinuteOf(start.watermark.value, minute));
    }
    if at < |window| && replies != [] && replies[0].Serves? {
      if forall r :: r in window[..at] && After(start.watermark, r) ==> r in covered {
        OffsetsListOn(source, "start_at", start.version, window, size, start.watermark, at, replies);
        ListingIsHonest(source, l, start.watermark, at, covered, steps);
      } else {
        var r :| r in window[..at] && After(start.watermark, r) && r !in covered;
        SkippingIsDishonest(source, "start_at", start.version, window, size, start.watermark, at, covered, replies, r);
      }
    }
  }

  /** How many of the records were updated before the bound. */
  function Earlier(items: seq<Record>, bound: int): nat
  {
    if items == [] || items[0].time >= bound then 0 else 1 + Earlier(items[1..], bound)
  }

  lemma {:induction false} UpdatedSinceIsSuffix(items: seq<Record>, bound: int)
    requires InOrder(items)
    ensures Earlier(items, bound) <= |items| && UpdatedSince(items, bound) == items[Earlier(items, bound)..]
    ensures forall i :: 0 <= i < |items| ==> (i < Earlier(items, bound) <==> items[i].time < bound)
  {
    if items != [] {
      var rest := items[1..];
      forall i, j | 0 <= i < j < |rest| ensures rest[i].time < rest[j].time {
        assert rest[i] == items[i + 1] && rest[j] == items[j + 1];
      }
      UpdatedSinceIsSuffix(rest, bound);
      if items[0].time >= bound {
        assert Earlier(rest, bound) == 0 by { if rest != [] { assert rest[0] == items[1]; } }
        assert [items[0]] + rest == items;
      }
      forall i | 0 < i < |items| ensures items[i] == rest[i - 1] {}
    }
  }

  /** An attempt that serves one page, undisturbed, and then ends. */
  lemma OnePageAttempt(cfg: Config, live: Live, attempt: Attempt, page: FetchPage, answers: Answers, last: Option<Stop>)
    requires cfg.dedup == Absent && cfg.maxPages.None? && cfg.maxRecords.None?
    requires AllMapped(page.records) && Smooth(answers, |page.records|)
    requires page.cursor.watermark.Some? && NotBehind(page.cursor.watermark, live.run.cursor.watermark)
    requires attempt.fetch(EffectiveStart(live.run.cursor, cfg.overlap))
          == [Yields(page, answers)] + if last.Some? then [Raises(last.value)] else []
    ensures var p := DrainAttempt(cfg, live, attempt);
            && p.stop == last
            && p.live.world.acked == live.world.acked + Published(page.records)
            && p.live.world.parked == live.world.parked
            && p.live.run.cursor == page.cursor && p.live.world.stored == Some(page.cursor)
  {
    var run := live.run.(attemptStats := NO_STATS);
    var begun, floor := live.(run := run), WatermarkFloor(run.cursor);
    SmoothPage(cfg, begun, floor, NO_STATS, page, answers);
    assert GuardWatermark(page.cursor, floor) == page.cursor && Advances(page.cursor, run.cursor);
    hide OnePage, SiftPage, Tally, Published;
    var rest := if last.Some? then [Raises(last.value)] else [];
    assert ([Yields(page, answers)] + rest)[1..] == rest;
    var p := OnePage(cfg, begun, floor, NO_STATS, page, answers);
    var q := Drain(cfg, p.live, floor, Tally(NO_STATS, page, SiftPage(cfg, live.world, page, answers)), rest);
    assert q.live == p.live && q.stop == last;
  }

  /** A run whose first attempt serves a page and then meets a transient failure, and whose second serves one more. */
  function JiraRetry(issues: seq<Record>, minute: nat, size: nat, answers: Answers): RunScript
    requires minute > 0 && size > 0
  {
    RunScript([JiraAttempt(issues, minute, size, [Serves(answers), Fails(Failed(Transient))]),
               JiraAttempt(issues, minute, size, [Serves(answers)])], false, true)
  }

  /** How many issues stand before the second attempt's window: the rewound watermark of the first page opens it. */
  function NarrowedBy(cfg: Config, issues: seq<Record>, minute: nat, size: nat): nat
    requires minute > 0 && 0 < size <= |issues|
  {
    Earlier(issues, MinuteOf(issues[size - 1].time - cfg.overlap, minute))
  }

  lemma JiraFirstAttempt(cfg: Config, issues: seq<Record>, minute: nat, size: nat, answers: Answers)
    requires cfg.dedup == Absent && cfg.maxPages.None? && cfg.maxRecords.None? && minute > 0
    requires InOrder(issues) && AllMapped(issues) && 0 < size < |issues| && Smooth(answers, size)
    ensures var p := DrainAttempt(cfg, Begin(EMPTY_WORLD), JiraRetry(issues, minute, size, answers).attempts[0]);
            && p.stop == Some(Failed(Transient))
            && p.live.world.acked == Published(issues[..size]) && p.live.world.parked == []
            && p.live.run.cursor == AtOffset("start_at", CURSOR_VERSION, issues[size - 1].time, size)
            && p.live.world.stored == Some(p.live.run.cursor)
  {
    var attempt, page := JiraRetry(issues, minute, size, answers).attempts[0], PageAt("start_at", 1, issues, size, 0);
    LatestIsLast(issues, 0, size);
    assert page.records == issues[..size];
    var replies := [Serves(answers), Fails(Failed(Transient))];
    assert OffsetSteps("start_at", 1, issues, size, 0, replies)
        == [Yields(page, answers)] + OffsetSteps("start_at", 1, issues, size, size, [Fails(Failed(Transient))]);
    OnePageAttempt(cfg, Begin(EMPTY_WORLD), attempt, page, answers, Some(Failed(Transient)));
  }

  /** A page of the narrowed window is a page of the whole list, further on. */
  lemma PageOfSuffix(items: seq<Record>, k: nat, size: nat, at: nat, page: FetchPage)
    requires InOrder(items) && size > 0 && at + k < |items|
    requires page == PageAt("start_at", CURSOR_VERSION, items[k..], size, at)
    ensures var end := PageEnd(items, size, at + k);
            page.records == items[at + k..end] && page.cursor.watermark == Some(items[end - 1].time)
  {
    hide PageEnd, InOrder, Latest;
    SuffixSlice(items, k, size, at);
    LatestIsLast(items, at + k, PageEnd(items, size, at + k));
  }

  lemma SuffixSlice(items: seq<Record>, k: nat, size: nat, at: nat)
    requires size > 0 && at + k < |items|
    ensures items[k..][at..PageEnd(items[k..], size, at)] == items[at + k..PageEnd(items, size, at + k)]
  {
  }

  lemma JiraSecondAttempt(cfg: Config, issues: seq<Record>, minute: nat, size: nat, answers: Answers, live: Live)
    requires cfg.dedup == Absent && cfg.maxPages.None? && cfg.maxRecords.None? && minute > 0
    requires InOrder(issues) && AllMapped(issues) && 0 < size < |issues| && Smooth(answers, size)
    requires size + NarrowedBy(cfg, issues, minute, size) < |issues|
    requires live.run.cursor == AtOffset("start_at", CURSOR_VERSION, issues[size - 1].time, size)
    ensures var p := DrainAttempt(cfg, live, JiraRetry(issues, minute, size, answers).attempts[1]);
            var from := size + NarrowedBy(cfg, issues, minute, size);
            var end := PageEnd(issues, size, from);
            && p.stop.None?
            && p.live.world.acked == live.world.acked + Published(issues[from..end])
            && p.live.world.parked == live.world.parked
            && StoredMark(p.live.world) == Some(issues[end - 1].time)
  {
    hide UpdatedSince, Latest, Earlier, InOrder, PageAt, DrainAttempt, Published;
    var attempt := JiraRetry(issues, minute, size, answers).attempts[1];
    var bound := MinuteOf(issues[size - 1].time - cfg.overlap, minute);
    UpdatedSinceIsSuffix(issues, bound);
    var k, window := Earlier(issues, bound), UpdatedSince(issues, bound);
    var start := EffectiveStart(live.run.cursor, cfg.overlap);
    var page := PageAt("start_at", CURSOR_VERSION, window, size, size);
    PageOfSuffix(issues, k, size, size, page);
    assert OffsetOf("start_at", start) == size && JiraWindow(issues, minute, start.watermark) == window;
    assert attempt.fetch(start) == OffsetSteps("start_at", CURSOR_VERSION, window, size, size, [Serves(answers)]);
    OneReplyOnePage("start_at", CURSOR_VERSION, window, size, size, answers);
    assert attempt.fetch(start) == [Yields(page, answers)] + [];
    LaterIsNoStepBack(issues, size - 1, PageEnd(issues, size, size + k) - 1);
    assert AllMapped(page.records);
    OnePageAttempt(cfg, live, attempt, page, answers, None);
  }

  lemma OneReplyOnePage(field: string, version: int, items: seq<Record>, size: nat, at: nat, answers: Answers)
    requires size > 0 && at < |items|
    ensures OffsetSteps(field, version, items, size, at, [Serves(answers)])
         == [Yields(PageAt(field, version, items, size, at), answers)]
  {
    hide PageAt, PageEnd;
    assert [Serves(answers)][1..] == [];
  }

  lemma LaterIsNoStepBack(items: seq<Record>, i: nat, j: nat)
    requires InOrder(items) && i < j < |items|
    ensures items[i].time < items[j].time
  {
  }

  /**
   What that costs: after one transient failure the run passes, with its watermark, exactly as many issues
   as stand before the narrowed window, and none of them was ever read.
   */
  lemma JiraRetryLosesWhatItNarrowedBy(cfg: Config, issues: seq<Record>, minute: nat, size: nat, answers: Answers)
    requires cfg.dedup == Absent && cfg.maxPages.None? && cfg.maxRecords.None? && minute > 0
    requires InOrder(issues) && AllMapped(issues) && 0 < size < |issues| && Smooth(answers, size)
    requires size + NarrowedBy(cfg, issues, minute, size) < |issues|
    ensures var w := AfterRun(cfg, EMPTY_WORLD, JiraRetry(issues, minute, size, answers));
            var from := size + NarrowedBy(cfg, issues, minute, size);
            && StoredMark(w) == Some(issues[PageEnd(issues, size, from) - 1].time)
            && forall i :: 0 <= i < |issues| && UpTo(StoredMark(w), issues[i]) ==>
                 (Handled(w, issues[i]) <==> !(size <= i < from))
  {
    hide DrainAttempt, NarrowedBy, InOrder, Handled, AtOffset, Published, JiraAttempt;
    var script := JiraRetry(issues, minute, size, answers);
    JiraFirstAttempt(cfg, issues, minute, size, answers);
    var p := DrainAttempt(cfg, Begin(EMPTY_WORLD), script.attempts[0]);
    JiraSecondAttempt(cfg, issues, minute, size, answers, p.live);
    var q := DrainAttempt(cfg, p.live, script.attempts[1]);
    RetryOnce(cfg, EMPTY_WORLD, script.attempts[0], script.attempts[1]);
    assert AfterRun(cfg, EMPTY_WORLD, script) == q.live.world;
    var from := size + NarrowedBy(cfg, issues, minute, size);
    var end := PageEnd(issues, size, from);
    forall i | 0 <= i < |issues| && issues[i].time <= issues[end - 1].time
      ensures Handled(q.live.world, issues[i]) <==> !(size <= i < from)
    {
      OnTwoPages(issues, size, from, end, i);
      IsHandledIff(q.live.world, issues[i]);
    }
  }

  lemma RetryOnce(cfg: Config, w: World, first: Attempt, second: Attempt)
    requires DrainAttempt(cfg, Begin(w), first).stop == Some(Failed(Transient))
    requires DrainAttempt(cfg, DrainAttempt(cfg, Begin(w), first).live, second).stop.None?
    ensures AfterRun(cfg, w, RunScript([first, second], false, true))
         == DrainAttempt(cfg, DrainAttempt(cfg, Begin(w), first).live, second).live.world
  {
    hide DrainAttempt, Begin;
    var p := DrainAttempt(cfg, Begin(w), first);
    assert [first, second][1..] == [second];
    assert Retry(cfg, p.live, [second]) == DrainAttempt(cfg, p.live, second);
  }

  lemma IsHandledIff(w: World, r: Record)
    requires r.mapping.Mapped? && w.parked == [] && Message(r, false) !in w.acked
    ensures Handled(w, r) <==> Message(r, true) in w.acked
  {
  }

  lemma OnTwoPages(issues: seq<Record>, size: nat, from: nat, end: nat, i: nat)
    requires InOrder(issues) && size <= from < end <= |issues| && i < |issues|
    requires issues[i].time <= issues[end - 1].time
    ensures var acked := Published(issues[..size]) + Published(issues[from..end]);
            && (Message(issues[i], true) in acked <==> !(size <= i < from))
            && Message(issues[i], false) !in acked
  {
    var first, second := Published(issues[..size]), Published(issues[from..end]);
    if i < size { assert first[i] == Message(issues[i], true); }
    if from <= i < end { assert second[i - from] == Message(issues[i], true); }
  }
}
