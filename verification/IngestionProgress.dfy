/**
 Two things every run keeps whatever the provider does, honest or not: the stored watermark never
 moves back, and every fetched record is counted exactly once.
 */
module IngestionProgress {
  import opened Options
  import opened Connectors
  import opened Ingestion
  import opened IngestionSafety

  // ------------------------------------------------------------- watermark

  /** The in-memory cursor is the stored one, or the fresh one while nothing is stored. */
  predicate Coherent(live: Live)
  {
    if live.world.stored.None? then live.run.cursor == FRESH else live.world.stored == Some(live.run.cursor)
  }

  /** Every commit stands no further back than the ones before it, and the last one is stored. */
  ghost predicate LogAscends(base: Option<int>, w: World)
  {
    && (forall i, j :: 0 <= i < j < |w.commits| ==> NotBehind(w.commits[j].watermark, w.commits[i].watermark))
    && (forall i :: 0 <= i < |w.commits| ==> NotBehind(w.commits[i].watermark, base))
    && (w.commits != [] ==> w.stored == Some(w.commits[|w.commits| - 1]))
    && NotBehind(StoredMark(w), base)
  }

  lemma CommitAscends(base: Option<int>, live: Live, cursor: Cursor)
    requires Coherent(live) && LogAscends(base, live.world)
    ensures Coherent(Commit(live, cursor)) && LogAscends(base, Commit(live, cursor).world)
  {
  }

  lemma SameLogAscends(base: Option<int>, live: Live, live': Live)
    requires Coherent(live) && LogAscends(base, live.world)
    requires live'.world.stored == live.world.stored && live'.world.commits == live.world.commits
    requires live'.run.cursor == live.run.cursor
    ensures Coherent(live') && LogAscends(base, live'.world)
  {
  }

  /** Either the store is left alone, or the cursor that advances is committed. */
  lemma PersistCommits(live: Live, batch: seq<Record>, cursor: Cursor, answers: Answers)
    ensures var p, c := Persist(live, batch, cursor, answers), Commit(live, cursor);
            || (p.live.world.stored == live.world.stored && p.live.world.commits == live.world.commits &&
                p.live.run.cursor == live.run.cursor)
            || (p.live.world.stored == c.world.stored && p.live.world.commits == c.world.commits &&
                p.live.run.cursor == c.run.cursor)
  {
    hide ArchiveAll, Acked, PublishStop, Advances;
  }

  lemma OnePageAscends(cfg: Config, base: Option<int>, live: Live, floor: Option<int>, stats: Stats, page: FetchPage,
                       answers: Answers)
    requires Coherent(live) && LogAscends(base, live.world)
    ensures var p := OnePage(cfg, live, floor, stats, page, answers);
            Coherent(p.live) && LogAscends(base, p.live.world)
  {
    hide LogAscends, Coherent, Sift, Persist, Commit, GuardWatermark;
    var sifted, guarded := SiftPage(cfg, live.world, page, answers), GuardWatermark(page.cursor, floor);
    var absorbed := Live(live.world.(seen := sifted.seen, marks := sifted.marks),
                         Absorb(live.run, Tally(stats, page, sifted)));
    SameLogAscends(base, live, absorbed);
    CommitAscends(base, absorbed, guarded);
    PersistCommits(absorbed, sifted.emitted, guarded, answers);
    var p := OnePage(cfg, live, floor, stats, page, answers).live;
    SameLogAscends(base, if p.run.cursor == live.run.cursor && p.world.commits == live.world.commits &&
                            p.world.stored == live.world.stored then absorbed else Commit(absorbed, guarded), p);
  }

  lemma {:induction false} DrainAscends(cfg: Config, base: Option<int>, live: Live, floor: Option<int>, stats: Stats,
                                        steps: seq<FetchStep>)
    requires Coherent(live) && LogAscends(base, live.world)
    ensures var p := Drain(cfg, live, floor, stats, steps);
            Coherent(p.live) && LogAscends(base, p.live.world)
    decreases |steps|
  {
    hide OnePage, SiftPage, Tally, LogAscends;
    if steps != [] && steps[0].Yields? {
      var page, answers := steps[0].page, steps[0].answers;
      OnePageAscends(cfg, base, live, floor, stats, page, answers);
      DrainAscends(cfg, base, OnePage(cfg, live, floor, stats, page, answers).live, floor,
                   Tally(stats, page, SiftPage(cfg, live.world, page, answers)), steps[1..]);
    }
  }

  lemma {:induction false} RetryAscends(cfg: Config, base: Option<int>, live: Live, attempts: seq<Attempt>)
    requires Coherent(live) && LogAscends(base, live.world)
    ensures var p := Retry(cfg, live, attempts);
            Coherent(p.live) && LogAscends(base, p.live.world)
    decreases |attempts|
  {
    hide Drain, LogAscends;
    if attempts != [] {
      var run := live.run.(attemptStats := NO_STATS);
      DrainAscends(cfg, base, live.(run := run), WatermarkFloor(run.cursor), NO_STATS,
                   attempts[0].fetch(EffectiveStart(run.cursor, cfg.overlap)));
      RetryAscends(cfg, base, DrainAttempt(cfg, live, attempts[0]).live, attempts[1..]);
    }
  }

  /** When a run is over, the store still holds what the runtime last committed. */
  lemma RunAscends(cfg: Config, base: Option<int>, w: World, script: RunScript)
    requires LogAscends(base, w)
    ensures LogAscends(base, AfterRun(cfg, w, script))
    ensures var p := Envelope(cfg, w, script);
            Coherent(p.live) && (AfterRun(cfg, w, script).stored == p.live.world.stored)
  {
    hide Retry;
    RetryAscends(cfg, base, Begin(w), script.attempts);
  }

  /**
   Over every history, whatever order the provider's pages come in, whatever it claims about them
   and wherever each run is cut off, the stored watermark never moves back, and neither does the
   log of commits.
   */
  lemma {:induction false} WatermarkNeverMovesBack(cfg: Config, w: World, scripts: seq<RunScript>)
    requires w.commits == []
    ensures LogAscends(StoredMark(w), History(cfg, w, scripts))
    ensures NotBehind(StoredMark(History(cfg, w, scripts)), StoredMark(w))
  {
    if scripts != [] {
      var n := |scripts| - 1;
      WatermarkNeverMovesBack(cfg, w, scripts[..n]);
      RunAscends(cfg, StoredMark(w), History(cfg, w, scripts[..n]), scripts[n]);
      hide AfterRun;
    }
  }

  // ------------------------------------------------------------ idle polls

  /** A step that hands back no newer watermark than the start it was given, as a 304 does. */
  predicate IdleStep(start: Option<int>, step: FetchStep)
  {
    step.Yields? ==> step.page.cursor.watermark == start
  }

  ghost predicate IdleAttempt(attempt: Attempt)
  {
    forall start: Cursor, i :: 0 <= i < |attempt.fetch(start)| ==> IdleStep(start.watermark, attempt.fetch(start)[i])
  }

  ghost predicate IdleRun(script: RunScript)
  {
    forall i :: 0 <= i < |script.attempts| ==> IdleAttempt(script.attempts[i])
  }

  /** `start` is the rewound form of a cursor whose watermark is `mark`, and `floor` its guard. */
  predicate Rewound(mark: Option<int>, start: Option<int>, floor: Option<int>)
  {
    && NotBehind(mark, start)
    && (floor == mark || (floor.None? && start.None?))
  }

  lemma {:induction false} IdleDrain(cfg: Config, live: Live, start: Option<int>, floor: Option<int>, stats: Stats,
                                     steps: seq<FetchStep>)
    requires InStep(live) && Rewound(StoredMark(live.world), start, floor)
    requires forall i :: 0 <= i < |steps| ==> IdleStep(start, steps[i])
    ensures var p := Drain(cfg, live, floor, stats, steps);
            InStep(p.live) && StoredMark(p.live.world) == StoredMark(live.world)
    decreases |steps|
  {
    if steps != [] && steps[0].Yields? {
      var page, answers := steps[0].page, steps[0].answers;
      IdlePage(cfg, live, start, floor, stats, page, answers);
      hide OnePage, SiftPage, Tally;
      IdleDrain(cfg, OnePage(cfg, live, floor, stats, page, answers).live, start, floor,
                Tally(stats, page, SiftPage(cfg, live.world, page, answers)), steps[1..]);
    }
  }

  lemma IdlePage(cfg: Config, live: Live, start: Option<int>, floor: Option<int>, stats: Stats, page: FetchPage,
                 answers: Answers)
    requires InStep(live) && Rewound(StoredMark(live.world), start, floor)
    requires page.cursor.watermark == start
    ensures var p := OnePage(cfg, live, floor, stats, page, answers);
            InStep(p.live) && StoredMark(p.live.world) == StoredMark(live.world)
  {
    hide Sift, ArchiveAll, Acked, PublishStop;
    var guarded := GuardWatermark(page.cursor, floor);
    assert guarded.watermark == StoredMark(live.world) || !Advances(guarded, live.run.cursor);
  }

  lemma {:induction false} IdleRetry(cfg: Config, live: Live, attempts: seq<Attempt>)
    requires InStep(live)
    requires forall i :: 0 <= i < |attempts| ==> IdleAttempt(attempts[i])
    ensures var p := Retry(cfg, live, attempts);
            InStep(p.live) && StoredMark(p.live.world) == StoredMark(live.world)
    decreases |attempts|
  {
    if attempts != [] {
      var run := live.run.(attemptStats := NO_STATS);
      var start := EffectiveStart(run.cursor, cfg.overlap);
      IdleDrain(cfg, live.(run := run), start.watermark, WatermarkFloor(run.cursor), NO_STATS,
                attempts[0].fetch(start));
      hide Drain;
      IdleRetry(cfg, DrainAttempt(cfg, live, attempts[0]).live, attempts[1..]);
    }
  }

  /**
   The stored watermark is a fixed point of idle polling: however often the provider hands the
   rewound cursor back, the overlap is not subtracted a second time.
   */
  lemma {:induction false} IdlePollsKeepWatermark(cfg: Config, w: World, scripts: seq<RunScript>)
    requires forall i :: 0 <= i < |scripts| ==> IdleRun(scripts[i])
    ensures StoredMark(History(cfg, w, scripts)) == StoredMark(w)
  {
    if scripts != [] {
      var n := |scripts| - 1;
      IdlePollsKeepWatermark(cfg, w, scripts[..n]);
      var w' := History(cfg, w, scripts[..n]);
      IdleRetry(cfg, Begin(w'), scripts[n].attempts);
      hide Retry;
    }
  }

  // ------------------------------------------------------- the refused commit

  /**
   The guard makes a refused commit impossible exactly while nothing newer than the floor has been
   committed: from the first advance within an attempt on, a page that passes the guard unchanged
   can still be refused.
   */
  lemma GuardRulesOutRefusalIff(floor: Option<int>, committed: Cursor)
    ensures (forall page: Cursor :: Advances(GuardWatermark(page, floor), committed))
            <==> NotBehind(floor, committed.watermark)
  {
    if !NotBehind(floor, committed.watermark) {
      var page := FRESH.(watermark := Some(committed.watermark.value - 1));
      assert !Advances(GuardWatermark(page, floor), committed);
    }
  }

  /** The events of a page whose payloads were all archived. */
  function Published(records: seq<Record>): seq<Message>
  {
    seq(|records|, i requires 0 <= i < |records| => Message(records[i], true))
  }

  /** Every record of the page is one `normalize` emits. */
  predicate AllMapped(records: seq<Record>)
  {
    forall i :: 0 <= i < |records| ==> records[i].mapping.Mapped?
  }

  /** Nothing goes wrong while up to `n` records are archived, published and committed. */
  predicate Smooth(answers: Answers, n: nat)
  {
    && |answers.archives| >= n && (forall i :: 0 <= i < n ==> answers.archives[i] == Stored)
    && |answers.acks| >= n && (forall i :: 0 <= i < n ==> answers.acks[i] == None)
    && answers.cut.None? && answers.commit.None?
  }

  lemma {:induction false} SiftsToAll(start: Sifted, records: seq<Record>)
    requires start.emitted == [] && AllMapped(records)
    ensures Sift(Absent, start, records) == start.(emitted := records)
  {
    if records != [] {
      var n := |records| - 1;
      SiftsToAll(start, records[..n]);
      assert records == records[..n] + [records[n]];
    }
  }

  lemma {:induction false} ArchivesToAll(batch: seq<Record>, archives: seq<Archive>)
    requires |archives| >= |batch| && forall i :: 0 <= i < |batch| ==> archives[i] == Stored
    ensures ArchiveAll(batch, archives) == Archived(Published(batch), [], 0, None)
  {
    if batch != [] {
      var n := |batch| - 1;
      ArchivesToAll(batch[..n], archives);
      assert Published(batch) == Published(batch[..n]) + [Message(batch[n], true)];
    }
  }

  lemma {:induction false} AcksAll(events: seq<Message>, acks: seq<Option<Stop>>)
    requires |acks| >= |events| && forall i :: 0 <= i < |events| ==> acks[i] == None
    ensures Acked(events, acks) == |events| && PublishStop(events, acks) == None
  {
    if events != [] {
      AcksAll(events[1..], acks[1..]);
    }
  }

  /** Without a seen-set, a page that nothing disturbs is published whole, and its cursor committed if it advances. */
  lemma SmoothPage(cfg: Config, live: Live, floor: Option<int>, stats: Stats, page: FetchPage, answers: Answers)
    requires cfg.dedup == Absent && AllMapped(page.records) && Smooth(answers, |page.records|)
    ensures var p, guarded := OnePage(cfg, live, floor, stats, page, answers), GuardWatermark(page.cursor, floor);
            && p.stop.None?
            && p.live.world.acked == live.world.acked + Published(page.records)
            && p.live.world.parked == live.world.parked
            && (if Advances(guarded, live.run.cursor) then
                  && p.live.run.cursor == guarded && p.live.world.stored == Some(guarded)
                  && p.live.world.commits == live.world.commits + [guarded]
                else
                  && p.live.run.cursor == live.run.cursor && p.live.world.stored == live.world.stored
                  && p.live.world.commits == live.world.commits)
  {
    hide Sift, ArchiveAll, Acked, PublishStop, GuardWatermark;
    var records, events := page.records, Published(page.records);
    SiftsToAll(Sifted([], 0, 0, 0, live.world.seen - answers.expired, live.world.marks), records);
    ArchivesToAll(records, answers.archives);
    AcksAll(events, answers.acks);
    assert events[..|events|] == events && live.world.parked + [] == live.world.parked;
  }

  /** A page up to the record's own time, then a page of a later record whose watermark stays behind. */
  function OutOfOrder(r: Record, later: Record, low: int): seq<FetchPage>
  {
    [FetchPage([r], FRESH.(watermark := Some(r.time))), FetchPage([later], FRESH.(watermark := Some(low)))]
  }

  lemma OutOfOrderIsHonest(start: Option<int>, covered: set<Record>, r: Record, later: Record, low: int,
                           answers: Answers)
    requires low < r.time < later.time
    ensures var pages := OutOfOrder(r, later, low);
            Honest({r, later}, start, covered, [Yields(pages[0], answers), Yields(pages[1], answers)])
  {
    var pages := OutOfOrder(r, later, low);
    var steps := [Yields(pages[0], answers), Yields(pages[1], answers)];
    assert r in pages[0].records && steps[1..] == [steps[1]] && [steps[1]][1..] == [];
    assert Honest({r, later}, start, covered + (set x | x in pages[0].records), [steps[1]]);
  }

  lemma DrainOfTwoSteps(cfg: Config, live: Live, floor: Option<int>, stats: Stats, first: FetchPage,
                        second: FetchPage, answers: Answers)
    requires cfg.maxPages.None? && cfg.maxRecords.None?
    requires OnePage(cfg, live, floor, stats, first, answers).stop.None?
    ensures var p := OnePage(cfg, live, floor, stats, first, answers);
            var stats' := Tally(stats, first, SiftPage(cfg, live.world, first, answers));
            var q := OnePage(cfg, p.live, floor, stats', second, answers);
            var whole := Drain(cfg, live, floor, stats, [Yields(first, answers), Yields(second, answers)]);
            whole.live == q.live && whole.stop == q.stop
  {
    var steps := [Yields(first, answers), Yields(second, answers)];
    var stats' := Tally(stats, first, SiftPage(cfg, live.world, first, answers));
    DrainOfOneStep(cfg, OnePage(cfg, live, floor, stats, first, answers).live, floor, stats', second, answers);
    hide OnePage, SiftPage, Tally;
    assert steps[1..] == [Yields(second, answers)];
  }

  /**
   An honest provider whose second page reaches the refusal: both pages pass the guard as they are and are
   published, the first is committed and stays committed.
   */
  lemma OutOfOrderPagesReachRefusal(cfg: Config, live: Live, r: Record, later: Record, low: int, answers: Answers,
                                    covered: set<Record>)
    requires cfg.dedup == Absent && cfg.maxPages.None? && cfg.maxRecords.None?
    requires r.mapping.Mapped? && later.mapping.Mapped? && Smooth(answers, 1)
    requires NotBehind(Some(low), live.run.cursor.watermark) && low < r.time < later.time
    ensures var pages, floor := OutOfOrder(r, later, low), WatermarkFloor(live.run.cursor);
            var attempt := Attempt((_: Cursor) => [Yields(pages[0], answers), Yields(pages[1], answers)]);
            var p, first := DrainAttempt(cfg, live, attempt), pages[0].cursor;
            && HonestAttempt(cfg, {r, later}, covered, live, attempt)
            && GuardWatermark(first, floor) == first && GuardWatermark(pages[1].cursor, floor) == pages[1].cursor
            && p.stop.None?
            && p.live.world.acked == live.world.acked + [Message(r, true), Message(later, true)]
            && p.live.run.cursor == first && p.live.world.stored == Some(first)
            && p.live.world.commits == live.world.commits + [first]
  {
    hide Honest, Drain, OnePage, SiftPage, Tally, Published;
    var run := live.run.(attemptStats := NO_STATS);
    var begun, floor := live.(run := run), WatermarkFloor(run.cursor);
    OutOfOrderIsHonest(EffectiveStart(run.cursor, cfg.overlap).watermark, covered, r, later, low, answers);
    var pages := OutOfOrder(r, later, low);
    var first, second := pages[0], pages[1];
    SmoothPage(cfg, begun, floor, NO_STATS, first, answers);
    DrainOfTwoSteps(cfg, begun, floor, NO_STATS, first, second, answers);
    var p := OnePage(cfg, begun, floor, NO_STATS, first, answers);
    SmoothPage(cfg, p.live, floor, Tally(NO_STATS, first, SiftPage(cfg, live.world, first, answers)), second, answers);
    PublishedOne(r);
    PublishedOne(later);
  }

  lemma PublishedOne(r: Record)
    ensures Published([r]) == [Message(r, true)]
  {
  }

  // ------------------------------------------------------- how a run ends

  /** An attempt that fails at its first request, with an error worth a retry. */
  ghost predicate FailsAtOnce(attempt: Attempt)
  {
    forall start: Cursor :: attempt.fetch(start) != [] && attempt.fetch(start)[0] == Raises(Failed(Transient))
  }

  lemma {:induction false} RetryKeepsFailing(cfg: Config, live: Live, attempts: seq<Attempt>)
    requires attempts != [] && forall i :: 0 <= i < |attempts| ==> FailsAtOnce(attempts[i])
    ensures var p := Retry(cfg, live, attempts);
            && p.stop == Some(Failed(Transient)) && p.live.world == live.world && p.live.run.cursor == live.run.cursor
    decreases |attempts|
  {
    assert FailsAtOnce(attempts[0]);
    if |attempts| > 1 {
      RetryKeepsFailing(cfg, DrainAttempt(cfg, live, attempts[0]).live, attempts[1..]);
    }
  }

  /**
   A run that never gets past its first request fails as transient, unless the provider asked for a pause too
   long to wait for, or the circuit was open: then it is a quota halt. It leaves the world as it was, but for
   the halt's checkpoint of the position it started from.
   */
  lemma FailingRunEndsAs(cfg: Config, w: World, script: RunScript)
    requires forall i :: 0 <= i < |script.attempts| ==> FailsAtOnce(script.attempts[i])
    ensures var p, halted := Envelope(cfg, w, script), script.attempts == [] || script.converted;
            && p.stop == Some(Failed(if halted then Quota else Transient))
            && AfterRun(cfg, w, script) ==
                 if halted && script.checkpointed && w.stored.Some? && !w.stored.value.IsEmpty()
                 then w.(commits := w.commits + [w.stored.value]) else w
  {
    if script.attempts != [] { RetryKeepsFailing(cfg, Begin(w), script.attempts); }
    hide DrainAttempt;
  }

  // ------------------------------------------------ cursors of another version

  /**
   A stored cursor of another version is not resumed from: the provider is asked from the beginning, and
   nothing clamps its pages. But its watermark still stands in the way of every commit that lies behind it,
   so what is crawled again is published and not recorded until the crawl has passed the old watermark.
   */
  lemma OldVersionIsCrawledAgain(cfg: Config, live: Live, attempt: Attempt, page: FetchPage, answers: Answers)
    requires cfg.dedup == Absent && live.run.cursor.version != CURSOR_VERSION && page.cursor.watermark.Some?
    requires AllMapped(page.records) && Smooth(answers, |page.records|)
    requires attempt.fetch(FRESH) == [Yields(page, answers)]
    ensures var p := DrainAttempt(cfg, live, attempt);
            && p.stop.None?
            && p.live.world.acked == live.world.acked + Published(page.records)
            && (if NotBehind(page.cursor.watermark, live.run.cursor.watermark) then
                  p.live.run.cursor == page.cursor && p.live.world.commits == live.world.commits + [page.cursor]
                else
                  p.live.run.cursor == live.run.cursor && p.live.world.commits == live.world.commits)
  {
    hide OnePage, SiftPage, Tally, Published;
    var begun := live.(run := live.run.(attemptStats := NO_STATS));
    SmoothPage(cfg, begun, None, NO_STATS, page, answers);
    DrainOfOneStep(cfg, begun, None, NO_STATS, page, answers);
    assert EffectiveStart(live.run.cursor, cfg.overlap) == FRESH && WatermarkFloor(live.run.cursor) == None;
  }

  /**
   A quota halt records where the runtime stands, unless it stands nowhere: a run that has neither watermark
   nor token nor checkpoint leaves no row behind.
   */
  lemma QuotaHaltRecordsThePosition(cfg: Config, w: World, script: RunScript)
    requires Envelope(cfg, w, script).stop == Some(Failed(Quota)) && script.checkpointed
    ensures var at, before, after := Envelope(cfg, w, script).live.run.cursor, Envelope(cfg, w, script).live.world,
                                     AfterRun(cfg, w, script);
            if at.watermark.None? && at.pageToken.None? && at.checkpoint == map[] then after == before
            else after == before.(stored := Some(at), commits := before.commits + [at])
  {
    hide Envelope;
  }

  // -------------------------------------------------------------- counters

  /** Every fetched record was acked, dropped, skipped, dead-lettered, or left by an interruption. */
  predicate Balanced(run: Run, left: int)
  {
    run.totals.fetched == run.emitted + run.totals.dropped + run.totals.duplicates + run.totals.dlq + left
  }

  lemma {:induction false} SiftConserves(dedup: Dedup, start: Sifted, records: seq<Record>)
    ensures var s := Sift(dedup, start, records);
            |s.emitted| + s.dropped + s.duplicates + s.dlq
            == |start.emitted| + start.dropped + start.duplicates + start.dlq + |records|
  {
    if records != [] {
      SiftConserves(dedup, start, records[..|records| - 1]);
    }
  }

  /** From `before` on, counters stayed balanced and `emitted` moved by one per ack. */
  predicate Conserves(before: Live, left: int, p: Progress)
  {
    && Balanced(p.live.run, left + p.left)
    && p.left >= 0
    && p.live.run.emitted - before.run.emitted == |p.live.world.acked| - |before.world.acked|
  }

  lemma OnePageConserves(cfg: Config, live: Live, floor: Option<int>, stats: Stats, page: FetchPage, answers: Answers,
                         left: int)
    requires live.run.attemptStats == stats && Balanced(live.run, left)
    ensures var p := OnePage(cfg, live, floor, stats, page, answers);
            && Conserves(live, left, p) && (p.stop.None? ==> p.left == 0)
            && (p.stop.None? ==>
                  p.live.run.attemptStats == Tally(stats, page, SiftPage(cfg, live.world, page, answers)))
  {
    SiftConserves(cfg.dedup, Sifted([], 0, 0, 0, live.world.seen - answers.expired, live.world.marks), page.records);
    hide Sift, ArchiveAll, Acked, PublishStop;
  }

  lemma {:induction false} DrainConserves(cfg: Config, live: Live, floor: Option<int>, stats: Stats,
                                          steps: seq<FetchStep>, left: int)
    requires live.run.attemptStats == stats && Balanced(live.run, left)
    ensures var p := Drain(cfg, live, floor, stats, steps);
            Conserves(live, left, p) && (p.stop.None? ==> p.left == 0)
    decreases |steps|
  {
    if steps != [] && steps[0].Yields? {
      var page, answers := steps[0].page, steps[0].answers;
      OnePageConserves(cfg, live, floor, stats, page, answers, left);
      hide OnePage, SiftPage, Tally;
      var p := OnePage(cfg, live, floor, stats, page, answers);
      var stats' := Tally(stats, page, SiftPage(cfg, live.world, page, answers));
      if p.stop.None? && !BudgetExhausted(cfg, stats') {
        DrainConserves(cfg, p.live, floor, stats', steps[1..], left);
      }
    }
  }

  lemma AttemptConserves(cfg: Config, live: Live, attempt: Attempt, left: int)
    requires Balanced(live.run, left)
    ensures var p := DrainAttempt(cfg, live, attempt);
            Conserves(live, left, p) && (p.stop.None? ==> p.left == 0)
  {
    hide Drain;
    var run := live.run.(attemptStats := NO_STATS);
    DrainConserves(cfg, live.(run := run), WatermarkFloor(run.cursor), NO_STATS,
                   attempt.fetch(EffectiveStart(run.cursor, cfg.overlap)), left);
  }

  lemma {:induction false} RetryConserves(cfg: Config, live: Live, attempts: seq<Attempt>, left: int)
    requires Balanced(live.run, left)
    ensures Conserves(live, left, Retry(cfg, live, attempts))
    decreases |attempts|
  {
    hide DrainAttempt;
    if attempts != [] {
      AttemptConserves(cfg, live, attempts[0], left);
      var p := DrainAttempt(cfg, live, attempts[0]);
      if p.stop == Some(Failed(Transient)) && |attempts| > 1 {
        RetryConserves(cfg, p.live, attempts[1..], left + p.left);
      }
    }
  }

  lemma BeginIsBalanced(w: World)
    ensures Balanced(Begin(w).run, 0)
  {
  }

  lemma EnvelopeConserves(cfg: Config, w: World, script: RunScript)
    ensures Conserves(Begin(w), 0, Envelope(cfg, w, script))
  {
    assert Conserves(Begin(w), 0, Retry(cfg, Begin(w), script.attempts)) by {
      hide *;
      BeginIsBalanced(w);
      RetryConserves(cfg, Begin(w), script.attempts, 0);
    }
    hide Retry;
  }

  /**
   Counter conservation: over a whole run, `fetched` is what was acked, dropped, skipped or
   dead-lettered plus exactly what interrupted batches left behind, and `emitted` is the number of
   acks.
   */
  lemma CountersConserve(cfg: Config, w: World, script: RunScript)
    ensures var p := Envelope(cfg, w, script);
            && p.live.run.totals.fetched == p.live.run.emitted + p.live.run.totals.dropped
                 + p.live.run.totals.duplicates + p.live.run.totals.dlq + p.left
            && p.left >= 0
            && p.live.run.emitted == |AfterRun(cfg, w, script).acked| - |w.acked|
  {
    hide Envelope, Retry;
    EnvelopeConserves(cfg, w, script);
  }

  lemma FirstAttemptIsTheRun(cfg: Config, w: World, script: RunScript)
    requires script.attempts != [] && DrainAttempt(cfg, Begin(w), script.attempts[0]).stop.None?
    ensures Envelope(cfg, w, script) == DrainAttempt(cfg, Begin(w), script.attempts[0])
  {
    hide DrainAttempt, Begin;
  }

  /** A run whose first attempt finishes leaves nothing behind: the four counters add up to `fetched`. */
  lemma CleanRunAddsUp(cfg: Config, w: World, script: RunScript)
    requires script.attempts != [] && DrainAttempt(cfg, Begin(w), script.attempts[0]).stop.None?
    ensures var run := Envelope(cfg, w, script).live.run;
            run.totals.fetched == run.emitted + run.totals.dropped + run.totals.duplicates + run.totals.dlq
  {
    assert Balanced(Envelope(cfg, w, script).live.run, 0) by {
      hide DrainAttempt, Balanced, Envelope;
      FirstAttemptIsTheRun(cfg, w, script);
      BeginIsBalanced(w);
      AttemptConserves(cfg, Begin(w), script.attempts[0], 0);
    }
    hide Envelope, DrainAttempt;
  }
}
