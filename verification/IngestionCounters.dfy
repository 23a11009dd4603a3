/**
 What the counters of a run count, one by one, and when an attempt stops fetching.
 */
module IngestionCounters {
  import opened Options
  import opened Connectors
  import opened Ingestion
  import opened IngestionProgress

  // ------------------------------------------------------------ page by page

  function CountDropped(records: seq<Record>): nat
  {
    if records == [] then 0 else (if records[0].mapping.Dropped? then 1 else 0) + CountDropped(records[1..])
  }

  function CountUnmappable(records: seq<Record>): nat
  {
    if records == [] then 0 else (if records[0].mapping.Unmappable? then 1 else 0) + CountUnmappable(records[1..])
  }

  lemma {:induction false} CountsOfAppend(records: seq<Record>, r: Record)
    ensures CountDropped(records + [r]) == CountDropped(records) + if r.mapping.Dropped? then 1 else 0
    ensures CountUnmappable(records + [r]) == CountUnmappable(records) + if r.mapping.Unmappable? then 1 else 0
  {
    if records != [] {
      assert (records + [r])[1..] == records[1..] + [r];
      CountsOfAppend(records[1..], r);
    } else {
      assert [r][1..] == [];
    }
  }

  /** A page's `dropped` counts the records that map to nothing, its `dlq` those that cannot be mapped. */
  lemma {:induction false} SiftCountsByFate(dedup: Dedup, start: Sifted, records: seq<Record>)
    ensures var s := Sift(dedup, start, records);
            && s.dropped == start.dropped + CountDropped(records)
            && s.dlq == start.dlq + CountUnmappable(records)
            && start.duplicates <= s.duplicates && |start.emitted| <= |s.emitted|
    decreases |records|
  {
    if records != [] {
      var n := |records| - 1;
      SiftCountsByFate(dedup, start, records[..n]);
      CountsOfAppend(records[..n], records[n]);
      assert records[..n] + [records[n]] == records;
    }
  }

  /** How many of the first `n` records the archive rejects before it stops answering or a rejection is not parked. */
  function Rejections(archives: seq<Archive>, n: nat): nat
    decreases n
  {
    if n == 0 || archives == [] then 0
    else
      match archives[0]
      case ArchiveStops(_) => 0
      case Rejected(parked) => 1 + if parked then Rejections(archives[1..], n - 1) else 0
      case _ => Rejections(archives[1..], n - 1)
  }

  /** The archive answers for the first `n` records, and each of them goes through. */
  predicate GoThrough(archives: seq<Archive>, n: nat)
  {
    n <= |archives| && forall i :: 0 <= i < n ==> archives[i] in {Stored, Deferred, Rejected(true)}
  }

  lemma {:induction false} OneMoreRejection(archives: seq<Archive>, n: nat)
    ensures Rejections(archives, n + 1) == Rejections(archives, n) +
              if GoThrough(archives, n) && n < |archives| && archives[n].Rejected? then 1 else 0
    decreases n
  {
    if archives != [] && n > 0 {
      OneMoreRejection(archives[1..], n - 1);
      assert archives[0] in {Stored, Deferred, Rejected(true)} ==>
          (GoThrough(archives, n) <==> GoThrough(archives[1..], n - 1)) by {
        assert forall i :: 0 < i < n && n <= |archives| ==> archives[i] == archives[1..][i - 1];
      }
    }
  }

  /** What the archive loop counts are the rejections. */
  lemma {:induction false} ArchiveCountsRejections(batch: seq<Record>, archives: seq<Archive>)
    ensures var a := ArchiveAll(batch, archives);
            a.counted == Rejections(archives, |batch|) && (a.stop.None? <==> GoThrough(archives, |batch|))
  {
    if batch != [] {
      var n := |batch| - 1;
      ArchiveCountsRejections(batch[..n], archives);
      OneMoreRejection(archives, n);
    }
  }

  /** The broker acks the first `n` events. */
  predicate AllAcked(acks: seq<Option<Stop>>, n: nat)
  {
    n <= |acks| && forall i :: 0 <= i < n ==> acks[i].None?
  }

  lemma {:induction false} PublishEndsIff(events: seq<Message>, acks: seq<Option<Stop>>)
    ensures PublishStop(events, acks).None? <==> AllAcked(acks, |events|)
  {
    if events != [] && acks != [] {
      PublishEndsIff(events[1..], acks[1..]);
      assert AllAcked(acks, |events|) <==> acks[0].None? && AllAcked(acks[1..], |events| - 1) by {
        assert forall i :: 0 < i < |acks| ==> acks[i] == acks[1..][i - 1];
      }
    }
  }

  /**
   When a batch is through: every archive answer lets it, every event is acked, and the cursor either falls
   behind or is written. Exactly then, and if it does not fall behind, the cursor moves.
   */
  lemma BatchIsThroughIff(live: Live, batch: seq<Record>, cursor: Cursor, answers: Answers)
    ensures var p, events := Persist(live, batch, cursor, answers), |ArchiveAll(batch, answers.archives).events|;
            var advances := NotBehind(cursor.watermark, live.run.cursor.watermark);
            && (p.stop.None? <==> && GoThrough(answers.archives, |batch|) && AllAcked(answers.acks, events)
                                  && (advances ==> answers.commit.None?))
            && (if p.stop.None? && advances then
                  p.live.world.stored == Some(cursor) && p.live.run.cursor == cursor
                else
                  p.live.world.stored == live.world.stored && p.live.run.cursor == live.run.cursor)
  {
    ArchiveCountsRejections(batch, answers.archives);
    PublishEndsIff(ArchiveAll(batch, answers.archives).events, answers.acks);
    hide ArchiveAll, Acked, PublishStop, GoThrough, AllAcked;
  }

  // ------------------------------------------------------------ attempt by attempt

  /** A page that was sifted to its end, and the records of it that the archive rejected. */
  datatype Taken = Taken(page: FetchPage, rejected: int)

  /** The pages an attempt takes, up to the one it stops at. */
  function TakenBy(cfg: Config, live: Live, floor: Option<int>, stats: Stats, steps: seq<FetchStep>): seq<Taken>
    decreases |steps|
  {
    if steps == [] || steps[0].Raises? || steps[0].answers.cut.Some? then []
    else
      var page, answers := steps[0].page, steps[0].answers;
      var p := OnePage(cfg, live, floor, stats, page, answers);
      var sifted := SiftPage(cfg, live.world, page, answers);
      var stats' := Tally(stats, page, sifted);
      [Taken(page, Rejections(answers.archives, |sifted.emitted|))] +
      if p.stop.Some? || BudgetExhausted(cfg, stats') then [] else TakenBy(cfg, p.live, floor, stats', steps[1..])
  }

  function TakenByRetry(cfg: Config, live: Live, attempts: seq<Attempt>): seq<Taken>
    decreases |attempts|
  {
    if attempts == [] then []
    else
      var run, p := live.run.(attemptStats := NO_STATS), DrainAttempt(cfg, live, attempts[0]);
      TakenBy(cfg, live.(run := run), WatermarkFloor(run.cursor), NO_STATS,
              attempts[0].fetch(EffectiveStart(run.cursor, cfg.overlap))) +
      if p.stop == Some(Failed(Transient)) && |attempts| > 1 then TakenByRetry(cfg, p.live, attempts[1..]) else []
  }

  /** The counters of a run as the pages taken would have them. */
  datatype Sum = Sum(fetched: int, dropped: int, dlq: int, pages: int) {
    function Plus(other: Sum): Sum
    {
      Sum(fetched + other.fetched, dropped + other.dropped, dlq + other.dlq, pages + other.pages)
    }
  }

  function Counted(taken: Taken): Sum
  {
    var records := taken.page.records;
    Sum(|records|, CountDropped(records), CountUnmappable(records) + taken.rejected, 1)
  }

  function SumOf(taken: seq<Taken>): Sum
  {
    if taken == [] then Sum(0, 0, 0, 0) else Counted(taken[0]).Plus(SumOf(taken[1..]))
  }

  lemma SumOfCons(first: Taken, rest: seq<Taken>)
    ensures SumOf([first] + rest) == Counted(first).Plus(SumOf(rest))
  {
    hide Counted;
    assert ([first] + rest)[1..] == rest;
  }

  lemma {:induction false} SumOfAppend(some: seq<Taken>, more: seq<Taken>)
    ensures SumOf(some + more) == SumOf(some).Plus(SumOf(more))
  {
    hide SumOf, Counted;
    if some == [] {
      NothingTaken();
      assert some + more == more && SumOf(some) == Sum(0, 0, 0, 0);
    } else {
      var rest := some[1..];
      SumOfAppend(rest, more);
      SumOfCons(some[0], rest);
      SumOfCons(some[0], rest + more);
      assert [some[0]] + rest == some && [some[0]] + (rest + more) == some + more;
    }
  }

  lemma NothingTaken()
    ensures SumOf([]) == Sum(0, 0, 0, 0)
  {
  }

  function Totals(run: Run): Sum { Sum(run.totals.fetched, run.totals.dropped, run.totals.dlq, run.totals.pages) }

  lemma OnePageTotals(cfg: Config, live: Live, floor: Option<int>, stats: Stats, page: FetchPage, answers: Answers)
    requires live.run.attemptStats == stats && answers.cut.None?
    ensures var p := OnePage(cfg, live, floor, stats, page, answers);
            var sifted := SiftPage(cfg, live.world, page, answers);
            var taken := Taken(page, Rejections(answers.archives, |sifted.emitted|));
            && Totals(p.live.run) == Totals(live.run).Plus(SumOf([taken]))
            && p.live.run.attemptStats == Tally(stats, page, sifted)
  {
    SiftCountsByFate(cfg.dedup, Sifted([], 0, 0, 0, live.world.seen - answers.expired, live.world.marks), page.records);
    ArchiveCountsRejections(SiftPage(cfg, live.world, page, answers).emitted, answers.archives);
    hide Sift, ArchiveAll, Acked, PublishStop, CountDropped, CountUnmappable, Rejections;
    var sifted := SiftPage(cfg, live.world, page, answers);
    var taken := Taken(page, Rejections(answers.archives, |sifted.emitted|));
    assert [taken][1..] == [];
  }

  lemma {:induction false} DrainTotals(cfg: Config, live: Live, floor: Option<int>, stats: Stats, steps: seq<FetchStep>)
    requires live.run.attemptStats == stats
    ensures Totals(Drain(cfg, live, floor, stats, steps).live.run)
         == Totals(live.run).Plus(SumOf(TakenBy(cfg, live, floor, stats, steps)))
    decreases |steps|
  {
    if steps != [] && steps[0].Yields? {
      var page, answers := steps[0].page, steps[0].answers;
      var p := OnePage(cfg, live, floor, stats, page, answers);
      if answers.cut.None? {
        OnePageTotals(cfg, live, floor, stats, page, answers);
        var sifted := SiftPage(cfg, live.world, page, answers);
        var stats' := Tally(stats, page, sifted);
        hide OnePage, SiftPage, Tally, SumOf;
        var taken := [Taken(page, Rejections(answers.archives, |sifted.emitted|))];
        if p.stop.None? && !BudgetExhausted(cfg, stats') {
          DrainTotals(cfg, p.live, floor, stats', steps[1..]);
          SumOfAppend(taken, TakenBy(cfg, p.live, floor, stats', steps[1..]));
        } else {
          assert taken + [] == taken;
        }
      }
    }
  }

  lemma {:induction false} RetryTotals(cfg: Config, live: Live, attempts: seq<Attempt>)
    ensures Totals(Retry(cfg, live, attempts).live.run)
         == Totals(live.run).Plus(SumOf(TakenByRetry(cfg, live, attempts)))
    decreases |attempts|
  {
    hide Drain, TakenBy, SumOf;
    if attempts == [] {
      NothingTaken();
    } else {
      var run, p := live.run.(attemptStats := NO_STATS), DrainAttempt(cfg, live, attempts[0]);
      var start := EffectiveStart(run.cursor, cfg.overlap);
      DrainTotals(cfg, live.(run := run), WatermarkFloor(run.cursor), NO_STATS, attempts[0].fetch(start));
      var taken := TakenBy(cfg, live.(run := run), WatermarkFloor(run.cursor), NO_STATS, attempts[0].fetch(start));
      if p.stop == Some(Failed(Transient)) && |attempts| > 1 {
        RetryTotals(cfg, p.live, attempts[1..]);
        SumOfAppend(taken, TakenByRetry(cfg, p.live, attempts[1..]));
      } else {
        assert taken + [] == taken;
      }
    }
  }

  /**
   Over a whole run, retries included, each counter counts what it is named for: `fetched` the records of
   the pages taken, `dropped` those that map to nothing, `dlq` those that cannot be mapped or archived, and
   `pages` the pages. With the conservation of records that leaves `duplicates` no choice.
   */
  lemma CountersCountWhatTheyName(cfg: Config, w: World, script: RunScript)
    ensures Totals(Envelope(cfg, w, script).live.run) == SumOf(TakenByRetry(cfg, Begin(w), script.attempts))
  {
    hide Retry, TakenByRetry, SumOf;
    RetryTotals(cfg, Begin(w), script.attempts);
  }

  // ------------------------------------------------------------ the budget

  /** How many records an attempt has emitted before its `k`-th page. */
  function EmittedBefore(cfg: Config, live: Live, floor: Option<int>, stats: Stats, steps: seq<FetchStep>, k: nat): int
    decreases k
  {
    if k == 0 || steps == [] || steps[0].Raises? then 0
    else
      var page, answers := steps[0].page, steps[0].answers;
      var sifted := SiftPage(cfg, live.world, page, answers);
      |sifted.emitted| + EmittedBefore(cfg, OnePage(cfg, live, floor, stats, page, answers).live, floor,
                                       Tally(stats, page, sifted), steps[1..], k - 1)
  }

  /** So many pages, or so many records, are within the run's budget. */
  predicate WithinBudget(cfg: Config, pages: int, emitted: int)
  {
    (cfg.maxPages.Some? ==> pages < cfg.maxPages.value) && (cfg.maxRecords.Some? ==> emitted < cfg.maxRecords.value)
  }

  /** One page moves the attempt's counters by one page and by what it emits. */
  lemma OnePageSpends(cfg: Config, live: Live, floor: Option<int>, stats: Stats, page: FetchPage, answers: Answers)
    requires live.run.attemptStats == stats && answers.cut.None?
    ensures var p, sifted := OnePage(cfg, live, floor, stats, page, answers), SiftPage(cfg, live.world, page, answers);
            var stats' := Tally(stats, page, sifted);
            && p.live.run.attemptStats == stats'
            && stats'.pages == stats.pages + 1 && stats'.emitted == stats.emitted + |sifted.emitted|
            && (BudgetExhausted(cfg, stats') <==> !WithinBudget(cfg, stats'.pages, stats'.emitted))
  {
    OnePageTotals(cfg, live, floor, stats, page, answers);
    hide OnePage, SiftPage, Totals;
  }

  /** How an attempt goes on after its first page, if it does. */
  lemma FirstOfTaken(cfg: Config, live: Live, floor: Option<int>, stats: Stats, steps: seq<FetchStep>)
    requires steps != [] && steps[0].Yields? && steps[0].answers.cut.None?
    ensures var page, answers := steps[0].page, steps[0].answers;
            var p, sifted := OnePage(cfg, live, floor, stats, page, answers), SiftPage(cfg, live.world, page, answers);
            var stats' := Tally(stats, page, sifted);
            var onwards := p.stop.None? && !BudgetExhausted(cfg, stats');
            && |TakenBy(cfg, live, floor, stats, steps)| ==
                 1 + (if onwards then |TakenBy(cfg, p.live, floor, stats', steps[1..])| else 0)
            && Drain(cfg, live, floor, stats, steps) ==
                 (if onwards then Drain(cfg, p.live, floor, stats', steps[1..]) else p)
            && forall k: nat :: k > 0 ==>
                 EmittedBefore(cfg, live, floor, stats, steps, k) ==
                   |sifted.emitted| + EmittedBefore(cfg, p.live, floor, stats', steps[1..], k - 1)
  {
    hide OnePage, SiftPage, Tally, BudgetExhausted;
  }

  lemma TakesAPage(cfg: Config, live: Live, floor: Option<int>, stats: Stats, steps: seq<FetchStep>)
    requires TakenBy(cfg, live, floor, stats, steps) != []
    ensures steps != [] && steps[0].Yields? && steps[0].answers.cut.None?
  {
  }

  lemma {:induction false} DrainGoesOnWithinBudget(cfg: Config, live: Live, floor: Option<int>, stats: Stats,
                                                   steps: seq<FetchStep>, k: nat)
    requires live.run.attemptStats == stats && 0 < k < |TakenBy(cfg, live, floor, stats, steps)|
    ensures WithinBudget(cfg, stats.pages + k, stats.emitted + EmittedBefore(cfg, live, floor, stats, steps, k))
    decreases |steps|
  {
    hide TakenBy, Drain, EmittedBefore, OnePage, SiftPage, Tally, WithinBudget, BudgetExhausted;
    TakesAPage(cfg, live, floor, stats, steps);
    var page, answers := steps[0].page, steps[0].answers;
    FirstOfTaken(cfg, live, floor, stats, steps);
    OnePageSpends(cfg, live, floor, stats, page, answers);
    var p, sifted := OnePage(cfg, live, floor, stats, page, answers), SiftPage(cfg, live.world, page, answers);
    var stats' := Tally(stats, page, sifted);
    NothingBefore(cfg, p.live, floor, stats', steps[1..]);
    if k > 1 {
      DrainGoesOnWithinBudget(cfg, p.live, floor, stats', steps[1..], k - 1);
    }
  }

  lemma NothingBefore(cfg: Config, live: Live, floor: Option<int>, stats: Stats, steps: seq<FetchStep>)
    ensures EmittedBefore(cfg, live, floor, stats, steps, 0) == 0
  {
  }

  lemma CleanDrainTakesAPage(cfg: Config, live: Live, floor: Option<int>, stats: Stats, steps: seq<FetchStep>)
    requires steps != [] && Drain(cfg, live, floor, stats, steps).stop.None?
    ensures steps[0].Yields? && steps[0].answers.cut.None?
  {
    hide SiftPage, Tally, BudgetExhausted, Persist;
  }

  lemma {:induction false} DrainStopsPastBudget(cfg: Config, live: Live, floor: Option<int>, stats: Stats,
                                                steps: seq<FetchStep>)
    requires live.run.attemptStats == stats && Drain(cfg, live, floor, stats, steps).stop.None?
    ensures var taken := |TakenBy(cfg, live, floor, stats, steps)|;
            taken < |steps| ==>
              taken > 0 && !WithinBudget(cfg, stats.pages + taken,
                                         stats.emitted + EmittedBefore(cfg, live, floor, stats, steps, taken))
    decreases |steps|
  {
    hide TakenBy, Drain, OnePage, SiftPage, Tally, WithinBudget, BudgetExhausted;
    if steps != [] {
      CleanDrainTakesAPage(cfg, live, floor, stats, steps);
      var page, answers := steps[0].page, steps[0].answers;
      FirstOfTaken(cfg, live, floor, stats, steps);
      OnePageSpends(cfg, live, floor, stats, page, answers);
      var p, sifted := OnePage(cfg, live, floor, stats, page, answers), SiftPage(cfg, live.world, page, answers);
      var stats' := Tally(stats, page, sifted);
      NothingBefore(cfg, p.live, floor, stats', steps[1..]);
      hide EmittedBefore;
      if !BudgetExhausted(cfg, stats') {
        DrainStopsPastBudget(cfg, p.live, floor, stats', steps[1..]);
      }
    }
  }

  /**
   When an attempt stops fetching: it goes on from page to page exactly while it is within its budget, and
   one that ends of itself before its provider does has used the budget up.
   */
  lemma AttemptStopsAtItsBudget(cfg: Config, live: Live, attempt: Attempt)
    ensures var run := live.run.(attemptStats := NO_STATS);
            var begun, floor := live.(run := run), WatermarkFloor(run.cursor);
            var steps := attempt.fetch(EffectiveStart(run.cursor, cfg.overlap));
            var taken := |TakenBy(cfg, begun, floor, NO_STATS, steps)|;
            && (forall k :: 0 < k < taken ==>
                  WithinBudget(cfg, k, EmittedBefore(cfg, begun, floor, NO_STATS, steps, k)))
            && (DrainAttempt(cfg, live, attempt).stop.None? && taken < |steps| ==>
                  taken > 0 && !WithinBudget(cfg, taken, EmittedBefore(cfg, begun, floor, NO_STATS, steps, taken)))
  {
    hide Drain, TakenBy, EmittedBefore, WithinBudget;
    var run := live.run.(attemptStats := NO_STATS);
    var begun, floor := live.(run := run), WatermarkFloor(run.cursor);
    var steps := attempt.fetch(EffectiveStart(run.cursor, cfg.overlap));
    var taken := |TakenBy(cfg, begun, floor, NO_STATS, steps)|;
    forall k | 0 < k < taken ensures WithinBudget(cfg, k, EmittedBefore(cfg, begun, floor, NO_STATS, steps, k)) {
      DrainGoesOnWithinBudget(cfg, begun, floor, NO_STATS, steps, k);
    }
    if DrainAttempt(cfg, live, attempt).stop.None? {
      DrainStopsPastBudget(cfg, begun, floor, NO_STATS, steps);
    }
  }
}
