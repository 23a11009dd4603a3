/**
 No record is lost: what the stored watermark promises about the two topics, over every history
 of runs, retries, deferrals, crashes and quota halts.
 */
module IngestionSafety {
  import opened Options
  import opened Connectors
  import opened Ingestion

  // ------------------------------------------------------------- contracts

  /** The records of the pages an attempt makes durable to their end. */
  function Finished(cfg: Config, live: Live, floor: Option<int>, stats: Stats, steps: seq<FetchStep>): set<Record>
    decreases |steps|
  {
    if steps == [] || steps[0].Raises? then {}
    else
      var page, answers := steps[0].page, steps[0].answers;
      var p := OnePage(cfg, live, floor, stats, page, answers);
      var stats' := Tally(stats, page, SiftPage(cfg, live.world, page, answers));
      if p.stop.Some? then {}
      else if BudgetExhausted(cfg, stats') then (set r | r in page.records)
      else (set r | r in page.records) + Finished(cfg, p.live, floor, stats', steps[1..])
  }

  function AttemptFinished(cfg: Config, live: Live, attempt: Attempt): set<Record>
  {
    var run := live.run.(attemptStats := NO_STATS);
    Finished(cfg, live.(run := run), WatermarkFloor(run.cursor), NO_STATS,
             attempt.fetch(EffectiveStart(run.cursor, cfg.overlap)))
  }

  function RetryFinished(cfg: Config, live: Live, attempts: seq<Attempt>): set<Record>
    decreases |attempts|
  {
    if attempts == [] then {}
    else
      var p := DrainAttempt(cfg, live, attempts[0]);
      AttemptFinished(cfg, live, attempts[0]) +
      if p.stop == Some(Failed(Transient)) && |attempts| > 1 then RetryFinished(cfg, p.live, attempts[1..]) else {}
  }

  /** What is behind a history: what its initial watermark covers, and every page some run made durable. */
  function Covered(cfg: Config, source: set<Record>, w: World, scripts: seq<RunScript>): set<Record>
    decreases |scripts|
  {
    if scripts == [] then set r | r in source && !After(StoredMark(w), r)
    else
      var n := |scripts| - 1;
      var before := History(cfg, w, scripts[..n]);
      Covered(cfg, source, w, scripts[..n]) + RetryFinished(cfg, Begin(before), scripts[n].attempts)
  }

  /**
   The `fetch` contract: when a page's cursor carries a watermark, every source record after the
   starting cursor and up to that watermark has been yielded by then.
   */
  ghost predicate Honest(source: set<Record>, start: Option<int>, yielded: set<Record>, steps: seq<FetchStep>)
    decreases |steps|
  {
    if steps == [] || steps[0].Raises? then true
    else
      var page := steps[0].page;
      var yielded' := yielded + (set r | r in page.records);
      && (forall r :: r in source && After(start, r) && UpTo(page.cursor.watermark, r) ==> r in yielded')
      && Honest(source, start, yielded', steps[1..])
  }

  /**
   The provider is honest from the cursor it is asked from. What it yielded in pages that were made
   durable, in this run or an earlier one, it need not yield again: it may resume by token or offset.
   */
  ghost predicate HonestAttempt(cfg: Config, source: set<Record>, covered: set<Record>, live: Live, attempt: Attempt)
  {
    var start := EffectiveStart(live.run.cursor, cfg.overlap);
    Honest(source, start.watermark, covered, attempt.fetch(start))
  }

  ghost predicate HonestRetry(cfg: Config, source: set<Record>, covered: set<Record>, live: Live,
                              attempts: seq<Attempt>)
    decreases |attempts|
  {
    attempts == [] ||
    (&& HonestAttempt(cfg, source, covered, live, attempts[0])
     && var p := DrainAttempt(cfg, live, attempts[0]);
        (p.stop == Some(Failed(Transient)) && |attempts| > 1 ==>
           HonestRetry(cfg, source, covered + AttemptFinished(cfg, live, attempts[0]), p.live, attempts[1..])))
  }

  ghost predicate HonestHistory(cfg: Config, source: set<Record>, w: World, scripts: seq<RunScript>)
    decreases |scripts|
  {
    scripts == [] ||
    (var n := |scripts| - 1;
     && HonestHistory(cfg, source, w, scripts[..n])
     && HonestRetry(cfg, source, Covered(cfg, source, w, scripts[..n]), Begin(History(cfg, w, scripts[..n])),
                    scripts[n].attempts))
  }

  // -------------------------------------------------------------- promises

  /** On the raw topic, on the dead-letter topic, or nothing `normalize` would emit. */
  predicate Handled(w: World, r: Record)
  {
    Message(r, true) in w.acked || Message(r, false) in w.acked || r in w.parked || !r.mapping.Mapped?
  }

  /** Handled, or shadowed by a key somebody marked. */
  predicate Accounted(w: World, r: Record)
  {
    Handled(w, r) || exists m :: m in w.marks && m.key in Keys(r)
  }

  /** Every source record after `from` and up to `mark` is accounted for. */
  ghost predicate AccountedUpTo(source: set<Record>, from: Option<int>, mark: Option<int>, w: World)
  {
    forall r :: r in source && After(from, r) && UpTo(mark, r) ==> Accounted(w, r)
  }

  /** The given records, as far as they came after `from`, are accounted for. */
  ghost predicate Kept(from: Option<int>, records: set<Record>, w: World)
  {
    forall r :: r in records && After(from, r) ==> Accounted(w, r)
  }

  function StoredMark(w: World): Option<int>
  {
    if w.stored.Some? then w.stored.value.watermark else None
  }

  /** Every key in the seen-set was marked, and by a record that has it. */
  ghost predicate SeenIsMarked(w: World)
  {
    && (forall k :: k in w.seen ==> exists m :: m in w.marks && m.key == k)
    && (forall m :: m in w.marks ==> m.key in Keys(m.owner))
  }

  /** Nobody marks without a seen-set; nobody marks ahead in the variant. */
  ghost predicate MarksFit(dedup: Dedup, w: World)
  {
    match dedup
    case Absent => w.marks == {}
    case MarkAhead => true
    case MarkAfterAck => forall m :: m in w.marks ==> Handled(w, m.owner)
  }

  /** What every point of every history keeps. */
  ghost predicate Safe(cfg: Config, source: set<Record>, from: Option<int>, w: World)
  {
    && AccountedUpTo(source, from, StoredMark(w), w)
    && SeenIsMarked(w)
    && MarksFit(cfg.dedup, w)
  }

  /** A later world has lost no message, no parked record and no mark. */
  predicate Grows(w: World, w': World)
  {
    w.acked <= w'.acked && w.parked <= w'.parked && w.marks <= w'.marks
  }

  lemma GrowthKeepsAccounts(w: World, w': World, r: Record)
    requires Grows(w, w')
    ensures Handled(w, r) ==> Handled(w', r)
    ensures Accounted(w, r) ==> Accounted(w', r)
  {
  }

  // --------------------------------------------------------------- sifting

  ghost predicate SiftedWell(dedup: Dedup, w: World, s: Sifted, records: seq<Record>)
  {
    && w.marks <= s.marks
    && (dedup != MarkAhead ==> s.marks == w.marks)
    && (forall k :: k in s.seen ==> exists m :: m in s.marks && m.key == k)
    && (forall m :: m in s.marks ==> m.key in Keys(m.owner))
    && (forall r :: r in records ==>
          r in s.emitted || !r.mapping.Mapped? || exists m :: m in s.marks && m.key in Keys(r))
  }

  lemma {:induction false} SiftAccounts(dedup: Dedup, w: World, start: Sifted, records: seq<Record>)
    requires SeenIsMarked(w) && MarksFit(dedup, w)
    requires start.emitted == [] && start.seen <= w.seen && start.marks == w.marks
    ensures SiftedWell(dedup, w, Sift(dedup, start, records), records)
  {
    if records != [] {
      var n := |records| - 1;
      SiftAccounts(dedup, w, start, records[..n]);
      SiftOneAccounts(dedup, w, Sift(dedup, start, records[..n]), records[..n], records[n]);
      assert records == records[..n] + [records[n]];
    }
  }

  lemma SiftOneAccounts(dedup: Dedup, w: World, s: Sifted, records: seq<Record>, r: Record)
    requires SiftedWell(dedup, w, s, records)
    ensures SiftedWell(dedup, w, SiftOne(dedup, s, r), records + [r])
  {
    var s' := SiftOne(dedup, s, r);
    if Keys(r) * s.seen != {} {
      var k :| k in Keys(r) * s.seen;
      assert exists m :: m in s.marks && m.key in Keys(r);
    }
    forall k | k in s'.seen ensures exists m :: m in s'.marks && m.key == k {
      if k !in s.seen {
        assert Mark(k, r) in MarksOf(r);
      }
    }
  }

  // ------------------------------------------------------------ persisting

  /** Some record of the batch is `r`, and the archive answered so for it. */
  predicate Answered(batch: seq<Record>, archives: seq<Archive>, r: Record, answer: Archive)
  {
    exists i :: 0 <= i < |batch| && i < |archives| && batch[i] == r && archives[i] == answer
  }

  lemma AnsweredOneMore(batch: seq<Record>, archives: seq<Archive>, r: Record, answer: Archive)
    requires batch != []
    ensures var n := |batch| - 1;
            Answered(batch, archives, r, answer) <==>
              Answered(batch[..n], archives, r, answer) || (r == batch[n] && n < |archives| && archives[n] == answer)
  {
    var n := |batch| - 1;
    if Answered(batch[..n], archives, r, answer) {
      var i :| 0 <= i < n && i < |archives| && batch[..n][i] == r && archives[i] == answer;
      assert batch[i] == r;
    }
    if Answered(batch, archives, r, answer) {
      var i :| 0 <= i < |batch| && i < |archives| && batch[i] == r && archives[i] == answer;
      assert i < n ==> batch[..n][i] == r;
    }
  }

  /**
   A batch that went through left every one of its records where the archive's answer for it belongs, and
   nothing else: an event with its payload stored, an event without, or the dead-letter topic.
   */
  lemma {:induction false} ArchiveKeepsAll(batch: seq<Record>, archives: seq<Archive>)
    requires ArchiveAll(batch, archives).stop.None?
    ensures var a := ArchiveAll(batch, archives);
            && (forall r :: Message(r, true) in a.events <==> Answered(batch, archives, r, Stored))
            && (forall r :: Message(r, false) in a.events <==> Answered(batch, archives, r, Deferred))
            && (forall r :: r in a.parked <==> Answered(batch, archives, r, Rejected(true)))
            && (forall r :: r in batch ==>
                  Message(r, true) in a.events || Message(r, false) in a.events || r in a.parked)
  {
    if batch != [] {
      var n := |batch| - 1;
      ArchiveKeepsAll(batch[..n], archives);
      assert batch == batch[..n] + [batch[n]];
      ArchiveOneSorts(ArchiveAll(batch[..n], archives), batch[n], AnswerTo(archives, n));
      hide Answered, ArchiveOne;
      var a := ArchiveAll(batch, archives);
      forall r ensures Message(r, true) in a.events <==> Answered(batch, archives, r, Stored) {
        AnsweredOneMore(batch, archives, r, Stored);
      }
      forall r ensures Message(r, false) in a.events <==> Answered(batch, archives, r, Deferred) {
        AnsweredOneMore(batch, archives, r, Deferred);
      }
      forall r ensures r in a.parked <==> Answered(batch, archives, r, Rejected(true)) {
        AnsweredOneMore(batch, archives, r, Rejected(true));
      }
    }
  }

  lemma ArchiveOneSorts(a: Archived, r: Record, answer: Archive)
    requires a.stop.None? && ArchiveOne(a, r, answer).stop.None?
    ensures var a' := ArchiveOne(a, r, answer);
            forall x ::
              && (Message(x, true) in a'.events <==> Message(x, true) in a.events || (x == r && answer == Stored))
              && (Message(x, false) in a'.events <==> Message(x, false) in a.events || (x == r && answer == Deferred))
              && (x in a'.parked <==> x in a.parked || (x == r && answer == Rejected(true)))
  {
  }

  lemma PersistHandles(live: Live, batch: seq<Record>, cursor: Cursor, answers: Answers)
    ensures var p := Persist(live, batch, cursor, answers);
            && Grows(live.world, p.live.world)
            && p.live.world.seen == live.world.seen && p.live.world.marks == live.world.marks
            && (p.stop.None? ==> forall r :: r in batch ==> Handled(p.live.world, r))
            && ((p.live.world.stored == live.world.stored && p.live.run.cursor == live.run.cursor) ||
                (p.stop.None? && p.live.world.stored == Some(cursor) && p.live.run.cursor == cursor))
  {
    var a := ArchiveAll(batch, answers.archives);
    var p := Persist(live, batch, cursor, answers);
    if p.stop.None? {
      ArchiveKeepsAll(batch, answers.archives);
      assert a.events[..|a.events|] == a.events;
    }
  }

  // ---------------------------------------------------------- page by page

  /** The runtime's memory of the cursor is the stored one. */
  predicate InStep(live: Live)
  {
    live.run.cursor.watermark == StoredMark(live.world)
  }

  /**
   Mid-attempt: the world is safe, all that was yielded is accounted for, and so is all the attempt
   does not ask for again and all it may fall back to.
   */
  ghost predicate Positioned(cfg: Config, source: set<Record>, from: Option<int>, start: Option<int>,
                             floor: Option<int>,
                             yielded: set<Record>, live: Live)
  {
    && InStep(live)
    && Safe(cfg, source, from, live.world)
    && Kept(from, yielded, live.world)
    && AccountedUpTo(source, from, start, live.world)
    && AccountedUpTo(source, from, floor, live.world)
  }

  /** The page was yielded in keeping with the `fetch` contract. */
  ghost predicate HonestPage(source: set<Record>, start: Option<int>, yielded: set<Record>, page: FetchPage)
  {
    forall r :: r in source && After(start, r) && UpTo(page.cursor.watermark, r) ==> r in yielded || r in page.records
  }

  lemma MarkDurableFits(cfg: Config, w: World, batch: seq<Record>)
    requires SeenIsMarked(w) && MarksFit(cfg.dedup, w)
    requires forall r :: r in batch ==> Handled(w, r)
    ensures var w' := MarkDurable(cfg.dedup, w, batch);
            && Grows(w, w') && SeenIsMarked(w') && MarksFit(cfg.dedup, w') && w'.stored == w.stored
  {
    var w' := MarkDurable(cfg.dedup, w, batch);
    forall k | k in w'.seen ensures exists m :: m in w'.marks && m.key == k {
      if k !in w.seen {
        var r :| r in batch && k in Keys(r);
        assert Mark(k, r) in w'.marks;
      }
    }
  }

  /** An interrupted sifting leaves marks behind, each with a key of its owner, and nothing else. */
  lemma CutGrows(cfg: Config, w: World, start: Sifted, records: seq<Record>, cut: Cut)
    requires SeenIsMarked(w) && MarksFit(cfg.dedup, w)
    requires start.emitted == [] && start.seen <= w.seen && start.marks == w.marks
    ensures var s := SiftUntil(cfg.dedup, start, records, cut);
            var w' := w.(seen := s.seen, marks := s.marks);
            Grows(w, w') && SeenIsMarked(w') && MarksFit(cfg.dedup, w')
  {
    hide Sift;
    var n := if cut.through < |records| then cut.through else |records|;
    SiftAccounts(cfg.dedup, w, start, records[..n]);
    var s, s' := Sift(cfg.dedup, start, records[..n]), SiftUntil(cfg.dedup, start, records, cut);
    forall k | k in s'.seen ensures exists m :: m in s'.marks && m.key == k {
      if k !in s.seen { assert Mark(k, records[n]) in s'.marks; }
    }
  }

  lemma OnePageGrows(cfg: Config, live: Live, floor: Option<int>, stats: Stats, page: FetchPage, answers: Answers)
    requires SeenIsMarked(live.world) && MarksFit(cfg.dedup, live.world)
    ensures var p := OnePage(cfg, live, floor, stats, page, answers);
            && Grows(live.world, p.live.world)
            && SeenIsMarked(p.live.world) && MarksFit(cfg.dedup, p.live.world)
            && (p.stop.None? ==> forall r :: r in page.records ==> Accounted(p.live.world, r))
            && ((p.live.world.stored == live.world.stored && p.live.run.cursor == live.run.cursor) ||
                (p.stop.None? && p.live.world.stored == Some(p.live.run.cursor) &&
                 p.live.run.cursor == GuardWatermark(page.cursor, floor)))
  {
    var start := Sifted([], 0, 0, 0, live.world.seen - answers.expired, live.world.marks);
    if answers.cut.Some? {
      CutGrows(cfg, live.world, start, page.records, answers.cut.value);
      hide SiftUntil;
      return;
    }
    SiftAccounts(cfg.dedup, live.world, start, page.records);
    var sifted := SiftPage(cfg, live.world, page, answers);
    var absorbed := Live(live.world.(seen := sifted.seen, marks := sifted.marks),
                         Absorb(live.run, Tally(stats, page, sifted)));
    hide Sift, Persist, ArchiveAll;
    var guarded := GuardWatermark(page.cursor, floor);
    PersistHandles(absorbed, sifted.emitted, guarded, answers);
    var p := Persist(absorbed, sifted.emitted, guarded, answers);
    if p.stop.None? {
      MarkDurableFits(cfg, p.live.world, sifted.emitted);
    }
  }

  lemma OnePageSafe(cfg: Config, source: set<Record>, from: Option<int>, start: Option<int>, floor: Option<int>,
                    yielded: set<Record>, live: Live, stats: Stats, page: FetchPage, answers: Answers)
    requires Positioned(cfg, source, from, start, floor, yielded, live)
    requires HonestPage(source, start, yielded, page)
    ensures var p := OnePage(cfg, live, floor, stats, page, answers);
            && InStep(p.live) && Safe(cfg, source, from, p.live.world) && Kept(from, yielded, p.live.world)
            && (p.stop.None? ==>
                  Positioned(cfg, source, from, start, floor, yielded + (set r | r in page.records), p.live))
  {
    OnePageGrows(cfg, live, floor, stats, page, answers);
    hide OnePage;
    var p := OnePage(cfg, live, floor, stats, page, answers);
    var w, w' := live.world, p.live.world;
    forall r | Accounted(w, r) ensures Accounted(w', r) {
      GrowthKeepsAccounts(w, w', r);
    }
  }

  lemma {:induction false} DrainSafe(cfg: Config, source: set<Record>, from: Option<int>, start: Option<int>,
                                     floor: Option<int>,
                                     yielded: set<Record>, live: Live, stats: Stats, steps: seq<FetchStep>)
    requires Positioned(cfg, source, from, start, floor, yielded, live)
    requires Honest(source, start, yielded, steps)
    ensures var p := Drain(cfg, live, floor, stats, steps);
            && InStep(p.live) && Safe(cfg, source, from, p.live.world)
            && Kept(from, yielded + Finished(cfg, live, floor, stats, steps), p.live.world)
    decreases |steps|
  {
    hide Safe, AccountedUpTo;
    if steps != [] && steps[0].Yields? {
      var page, answers := steps[0].page, steps[0].answers;
      OnePageSafe(cfg, source, from, start, floor, yielded, live, stats, page, answers);
      hide OnePage, SiftPage, Tally;
      var p := OnePage(cfg, live, floor, stats, page, answers);
      var stats' := Tally(stats, page, SiftPage(cfg, live.world, page, answers));
      if p.stop.None? && !BudgetExhausted(cfg, stats') {
        DrainSafe(cfg, source, from, start, floor, yielded + (set r | r in page.records), p.live, stats', steps[1..]);
      }
    }
  }

  lemma AttemptSafe(cfg: Config, source: set<Record>, from: Option<int>, covered: set<Record>, live: Live,
                    attempt: Attempt)
    requires InStep(live) && Safe(cfg, source, from, live.world) && Kept(from, covered, live.world)
    requires HonestAttempt(cfg, source, covered, live, attempt)
    ensures var p := DrainAttempt(cfg, live, attempt);
            && InStep(p.live) && Safe(cfg, source, from, p.live.world)
            && Kept(from, covered + AttemptFinished(cfg, live, attempt), p.live.world)
  {
    var run := live.run.(attemptStats := NO_STATS);
    var start := EffectiveStart(run.cursor, cfg.overlap);
    DrainSafe(cfg, source, from, start.watermark, WatermarkFloor(run.cursor), covered, live.(run := run), NO_STATS,
              attempt.fetch(start));
  }

  lemma {:induction false} RetrySafe(cfg: Config, source: set<Record>, from: Option<int>, covered: set<Record>,
                                     live: Live, attempts: seq<Attempt>)
    requires InStep(live) && Safe(cfg, source, from, live.world) && Kept(from, covered, live.world)
    requires HonestRetry(cfg, source, covered, live, attempts)
    ensures var p := Retry(cfg, live, attempts);
            && InStep(p.live) && Safe(cfg, source, from, p.live.world)
            && Kept(from, covered + RetryFinished(cfg, live, attempts), p.live.world)
    decreases |attempts|
  {
    hide DrainAttempt, AttemptFinished, HonestAttempt, Safe;
    if attempts != [] {
      AttemptSafe(cfg, source, from, covered, live, attempts[0]);
      var p := DrainAttempt(cfg, live, attempts[0]);
      if p.stop == Some(Failed(Transient)) && |attempts| > 1 {
        RetrySafe(cfg, source, from, covered + AttemptFinished(cfg, live, attempts[0]), p.live, attempts[1..]);
      }
    }
  }

  /** One run, however it ends, keeps the world safe and every page it or a run before it made durable. */
  lemma RunIsSafe(cfg: Config, source: set<Record>, from: Option<int>, covered: set<Record>, w: World,
                  script: RunScript)
    requires Safe(cfg, source, from, w) && Kept(from, covered, w)
    requires HonestRetry(cfg, source, covered, Begin(w), script.attempts)
    ensures var w' := AfterRun(cfg, w, script);
            && Safe(cfg, source, from, w')
            && Kept(from, covered + RetryFinished(cfg, Begin(w), script.attempts), w')
  {
    hide Retry, RetryFinished;
    RetrySafe(cfg, source, from, covered, Begin(w), script.attempts);
  }

  lemma {:induction false} HistoryIsSafe(cfg: Config, source: set<Record>, w: World, scripts: seq<RunScript>)
    requires Safe(cfg, source, StoredMark(w), w) && HonestHistory(cfg, source, w, scripts)
    ensures var w' := History(cfg, w, scripts);
            Safe(cfg, source, StoredMark(w), w') && Kept(StoredMark(w), Covered(cfg, source, w, scripts), w')
    decreases |scripts|
  {
    hide AfterRun, HonestRetry, RetryFinished, Safe;
    if scripts != [] {
      var n := |scripts| - 1;
      HistoryIsSafe(cfg, source, w, scripts[..n]);
      RunIsSafe(cfg, source, StoredMark(w), Covered(cfg, source, w, scripts[..n]), History(cfg, w, scripts[..n]),
                scripts[n]);
    }
  }

  // ---------------------------------------------------------- the theorems

  /** Nothing published, nothing marked, and a cursor store that may already hold a watermark. */
  predicate Untouched(w: World)
  {
    w.acked == [] && w.parked == [] && w.seen == {} && w.marks == {}
  }

  lemma UntouchedIsSafe(cfg: Config, source: set<Record>, w: World)
    requires Untouched(w)
    ensures Safe(cfg, source, StoredMark(w), w)
  {
  }

  /**
   No loss without a seen-set: over any history of runs, retries, archive deferrals, crashes and
   halts, every record after the initial watermark and up to the stored one is on the raw topic,
   on the dead-letter topic, or was not meant to be emitted.
   */
  lemma NoLossWithoutDedup(cfg: Config, source: set<Record>, w: World, scripts: seq<RunScript>, r: Record)
    requires cfg.dedup == Absent && Untouched(w) && HonestHistory(cfg, source, w, scripts)
    requires r in source && After(StoredMark(w), r) && UpTo(StoredMark(History(cfg, w, scripts)), r)
    ensures Handled(History(cfg, w, scripts), r)
  {
    hide History;
    UntouchedIsSafe(cfg, source, w);
    HistoryIsSafe(cfg, source, w, scripts);
  }

  /** Handled, or an exact or content duplicate of something handled. */
  ghost predicate Represented(w: World, r: Record)
  {
    Handled(w, r) || exists other: Record :: Handled(w, other) && Keys(r) * Keys(other) != {}
  }

  /**
   With a seen-set loss is confined to orphaned marks: a record that is missing below the stored
   watermark, and of which no duplicate got through either, shares a key with a record that was
   marked and itself never got through.
   */
  lemma LossIsConfinedToMarks(cfg: Config, source: set<Record>, w: World, scripts: seq<RunScript>, r: Record)
    requires Untouched(w) && HonestHistory(cfg, source, w, scripts)
    requires r in source && After(StoredMark(w), r) && UpTo(StoredMark(History(cfg, w, scripts)), r)
    ensures var w' := History(cfg, w, scripts);
            Represented(w', r) || exists m :: m in w'.marks && m.key in Keys(r) && !Handled(w', m.owner)
  {
    hide History;
    UntouchedIsSafe(cfg, source, w);
    HistoryIsSafe(cfg, source, w, scripts);
    var w' := History(cfg, w, scripts);
    if !Handled(w', r) {
      var m :| m in w'.marks && m.key in Keys(r);
      assert m.key in Keys(r) * Keys(m.owner);
    }
  }

  /** The promise of the module: nothing below the stored watermark is missing, duplicates aside. */
  ghost predicate KeepsPromise(source: set<Record>, w: World, w': World)
  {
    forall r :: r in source && After(StoredMark(w), r) && UpTo(StoredMark(w'), r) ==> Represented(w', r)
  }

  /** The promise holds for every provider, every starting store and every history. */
  ghost predicate AtLeastOnce(cfg: Config)
  {
    forall source, w, scripts :: Untouched(w) && HonestHistory(cfg, source, w, scripts) ==>
      KeepsPromise(source, w, History(cfg, w, scripts))
  }

  lemma PromiseKept(cfg: Config, source: set<Record>, w: World, scripts: seq<RunScript>)
    requires cfg.dedup != MarkAhead && Untouched(w) && HonestHistory(cfg, source, w, scripts)
    ensures KeepsPromise(source, w, History(cfg, w, scripts))
  {
    hide History;
    UntouchedIsSafe(cfg, source, w);
    HistoryIsSafe(cfg, source, w, scripts);
    var w' := History(cfg, w, scripts);
    forall r | r in source && After(StoredMark(w), r) && UpTo(StoredMark(w'), r)
      ensures Represented(w', r)
    {
      if !Handled(w', r) {
        var m :| m in w'.marks && m.key in Keys(r);
        assert m.key in Keys(r) * Keys(m.owner);
      }
    }
  }

  // ------------------------------------------------- histories without a broken batch

  /** Whoever was marked got through. */
  ghost predicate MarksAreHandled(w: World)
  {
    forall m :: m in w.marks ==> Handled(w, m.owner)
  }

  lemma {:induction false} SiftMarksWhatItEmits(dedup: Dedup, start: Sifted, records: seq<Record>)
    requires start.emitted == []
    ensures forall m :: m in Sift(dedup, start, records).marks ==>
              m in start.marks || m.owner in Sift(dedup, start, records).emitted
  {
    if records != [] {
      var n := |records| - 1;
      SiftMarksWhatItEmits(dedup, start, records[..n]);
    }
  }

  /** A page that is made durable to the end leaves no mark without its record, in every mode. */
  lemma FinishedPageHandlesItsMarks(cfg: Config, live: Live, floor: Option<int>, stats: Stats, page: FetchPage,
                                    answers: Answers)
    requires MarksAreHandled(live.world)
    requires OnePage(cfg, live, floor, stats, page, answers).stop.None?
    ensures MarksAreHandled(OnePage(cfg, live, floor, stats, page, answers).live.world)
  {
    var sifted := SiftPage(cfg, live.world, page, answers);
    SiftMarksWhatItEmits(cfg.dedup, Sifted([], 0, 0, 0, live.world.seen - answers.expired, live.world.marks),
                         page.records);
    var absorbed := Live(live.world.(seen := sifted.seen, marks := sifted.marks),
                         Absorb(live.run, Tally(stats, page, sifted)));
    hide Sift, Persist, ArchiveAll, GuardWatermark;
    PersistHandles(absorbed, sifted.emitted, GuardWatermark(page.cursor, floor), answers);
    var p := Persist(absorbed, sifted.emitted, GuardWatermark(page.cursor, floor), answers);
    forall m | m in p.live.world.marks ensures Handled(p.live.world, m.owner) {
      if m in live.world.marks {
        assert Handled(live.world, m.owner);
        assert Handled(absorbed.world, m.owner);
        GrowthKeepsAccounts(absorbed.world, p.live.world, m.owner);
      }
    }
    MarkedDurableIsHandled(cfg.dedup, p.live.world, sifted.emitted);
  }

  lemma MarkedDurableIsHandled(dedup: Dedup, w: World, batch: seq<Record>)
    requires MarksAreHandled(w) && forall r :: r in batch ==> Handled(w, r)
    ensures MarksAreHandled(MarkDurable(dedup, w, batch))
  {
    var w' := MarkDurable(dedup, w, batch);
    forall m | m in w'.marks ensures Handled(w', m.owner) {
      assert m in w.marks || m.owner in batch;
      assert Handled(w, m.owner);
    }
  }

  /** Every batch of the attempt that was begun was made durable to its end. */
  predicate UnbrokenDrain(cfg: Config, live: Live, floor: Option<int>, stats: Stats, steps: seq<FetchStep>)
    decreases |steps|
  {
    steps == [] || steps[0].Raises? ||
    (var page, answers := steps[0].page, steps[0].answers;
     var p := OnePage(cfg, live, floor, stats, page, answers);
     var stats' := Tally(stats, page, SiftPage(cfg, live.world, page, answers));
     p.stop.None? && (BudgetExhausted(cfg, stats') || UnbrokenDrain(cfg, p.live, floor, stats', steps[1..])))
  }

  predicate UnbrokenAttempt(cfg: Config, live: Live, attempt: Attempt)
  {
    var run := live.run.(attemptStats := NO_STATS);
    UnbrokenDrain(cfg, live.(run := run), WatermarkFloor(run.cursor), NO_STATS,
                  attempt.fetch(EffectiveStart(run.cursor, cfg.overlap)))
  }

  predicate UnbrokenRetry(cfg: Config, live: Live, attempts: seq<Attempt>)
    decreases |attempts|
  {
    attempts == [] ||
    (&& UnbrokenAttempt(cfg, live, attempts[0])
     && var p := DrainAttempt(cfg, live, attempts[0]);
        (p.stop == Some(Failed(Transient)) && |attempts| > 1 ==> UnbrokenRetry(cfg, p.live, attempts[1..])))
  }

  /** No run of the history was interrupted inside a batch; between pages anything may have happened. */
  predicate Unbroken(cfg: Config, w: World, scripts: seq<RunScript>)
    decreases |scripts|
  {
    scripts == [] ||
    (var n := |scripts| - 1;
     Unbroken(cfg, w, scripts[..n]) && UnbrokenRetry(cfg, Begin(History(cfg, w, scripts[..n])), scripts[n].attempts))
  }

  lemma {:induction false} UnbrokenDrainHandlesMarks(cfg: Config, live: Live, floor: Option<int>, stats: Stats,
                                                     steps: seq<FetchStep>)
    requires MarksAreHandled(live.world) && UnbrokenDrain(cfg, live, floor, stats, steps)
    ensures MarksAreHandled(Drain(cfg, live, floor, stats, steps).live.world)
    decreases |steps|
  {
    hide OnePage, SiftPage, Tally, MarksAreHandled;
    if steps != [] && steps[0].Yields? {
      var page, answers := steps[0].page, steps[0].answers;
      FinishedPageHandlesItsMarks(cfg, live, floor, stats, page, answers);
      var p := OnePage(cfg, live, floor, stats, page, answers);
      var stats' := Tally(stats, page, SiftPage(cfg, live.world, page, answers));
      if !BudgetExhausted(cfg, stats') {
        UnbrokenDrainHandlesMarks(cfg, p.live, floor, stats', steps[1..]);
      }
    }
  }

  lemma {:induction false} UnbrokenRetryHandlesMarks(cfg: Config, live: Live, attempts: seq<Attempt>)
    requires MarksAreHandled(live.world) && UnbrokenRetry(cfg, live, attempts)
    ensures MarksAreHandled(Retry(cfg, live, attempts).live.world)
    decreases |attempts|
  {
    if attempts != [] {
      var run := live.run.(attemptStats := NO_STATS);
      UnbrokenDrainHandlesMarks(cfg, live.(run := run), WatermarkFloor(run.cursor), NO_STATS,
                                attempts[0].fetch(EffectiveStart(run.cursor, cfg.overlap)));
      var p := DrainAttempt(cfg, live, attempts[0]);
      if p.stop == Some(Failed(Transient)) && |attempts| > 1 {
        UnbrokenRetryHandlesMarks(cfg, p.live, attempts[1..]);
      }
    }
  }

  lemma {:induction false} UnbrokenHistoryHandlesMarks(cfg: Config, w: World, scripts: seq<RunScript>)
    requires MarksAreHandled(w) && Unbroken(cfg, w, scripts)
    ensures MarksAreHandled(History(cfg, w, scripts))
    decreases |scripts|
  {
    if scripts != [] {
      var n := |scripts| - 1;
      UnbrokenHistoryHandlesMarks(cfg, w, scripts[..n]);
      hide Retry, UnbrokenRetry;
      UnbrokenRetryHandlesMarks(cfg, Begin(History(cfg, w, scripts[..n])), scripts[n].attempts);
    }
  }

  /**
   What a deployment with deduplication can rely on: a history in which no batch was interrupted
   keeps the promise in every mode, marking ahead included.
   */
  lemma UnbrokenHistoriesKeepThePromise(cfg: Config, source: set<Record>, w: World, scripts: seq<RunScript>)
    requires Untouched(w) && HonestHistory(cfg, source, w, scripts) && Unbroken(cfg, w, scripts)
    ensures KeepsPromise(source, w, History(cfg, w, scripts))
  {
    UnbrokenHistoryHandlesMarks(cfg, w, scripts);
    hide History, Unbroken;
    var w' := History(cfg, w, scripts);
    forall r | r in source && After(StoredMark(w), r) && UpTo(StoredMark(w'), r) ensures Represented(w', r) {
      LossIsConfinedToMarks(cfg, source, w, scripts, r);
    }
  }

  // ------------------------------------------------------- exactly what is lost

  /** Whatever got through was marked under all its keys. */
  ghost predicate HandledAreMarked(w: World)
  {
    && (forall msg, k :: msg in w.acked && k in Keys(msg.record) ==> Mark(k, msg.record) in w.marks)
    && (forall r, k :: r in w.parked && k in Keys(r) ==> Mark(k, r) in w.marks)
  }

  /** The records are marked under all their keys. */
  ghost predicate Marked(records: seq<Record>, marks: set<Mark>)
  {
    forall r, k :: r in records && k in Keys(r) ==> Mark(k, r) in marks
  }

  lemma {:induction false} SiftMarksAllItEmits(start: Sifted, records: seq<Record>)
    requires start.emitted == []
    ensures var s := Sift(MarkAhead, start, records); start.marks <= s.marks && Marked(s.emitted, s.marks)
  {
    if records != [] {
      var n := |records| - 1;
      SiftMarksAllItEmits(start, records[..n]);
      var s, s' := Sift(MarkAhead, start, records[..n]), Sift(MarkAhead, start, records);
      forall r, k | r in s'.emitted && k in Keys(r) ensures Mark(k, r) in s'.marks {
        if r !in s.emitted { assert r == records[n] && Mark(k, r) in MarksOf(r); }
      }
    }
  }

  lemma {:induction false} ArchivesOnlyTheBatch(batch: seq<Record>, archives: seq<Archive>)
    ensures var a := ArchiveAll(batch, archives);
            && (forall msg :: msg in a.events ==> msg.record in batch)
            && (forall r :: r in a.parked ==> r in batch)
  {
    if batch != [] {
      var n := |batch| - 1;
      ArchivesOnlyTheBatch(batch[..n], archives);
    }
  }

  lemma PersistsOnlyTheBatch(live: Live, batch: seq<Record>, cursor: Cursor, answers: Answers)
    ensures var w, w' := live.world, Persist(live, batch, cursor, answers).live.world;
            && (forall msg :: msg in w'.acked ==> msg in w.acked || msg.record in batch)
            && (forall r :: r in w'.parked ==> r in w.parked || r in batch)
            && w'.marks == w.marks
  {
    ArchivesOnlyTheBatch(batch, answers.archives);
    hide ArchiveAll;
  }

  lemma CutKeepsMarks(start: Sifted, records: seq<Record>, cut: Cut)
    requires start.emitted == []
    ensures start.marks <= SiftUntil(MarkAhead, start, records, cut).marks
  {
    hide Sift;
    SiftMarksAllItEmits(start, records[..if cut.through < |records| then cut.through else |records|]);
  }

  lemma OnePageMarksAhead(cfg: Config, live: Live, floor: Option<int>, stats: Stats, page: FetchPage, answers: Answers)
    requires cfg.dedup == MarkAhead && HandledAreMarked(live.world)
    ensures HandledAreMarked(OnePage(cfg, live, floor, stats, page, answers).live.world)
  {
    var start := Sifted([], 0, 0, 0, live.world.seen - answers.expired, live.world.marks);
    if answers.cut.Some? {
      CutKeepsMarks(start, page.records, answers.cut.value);
      hide SiftUntil;
      return;
    }
    var sifted := SiftPage(cfg, live.world, page, answers);
    SiftMarksAllItEmits(start, page.records);
    var absorbed := Live(live.world.(seen := sifted.seen, marks := sifted.marks),
                         Absorb(live.run, Tally(stats, page, sifted)));
    hide Sift, Persist, GuardWatermark;
    PersistsOnlyTheBatch(absorbed, sifted.emitted, GuardWatermark(page.cursor, floor), answers);
  }

  lemma {:induction false} DrainMarksAhead(cfg: Config, live: Live, floor: Option<int>, stats: Stats,
                                           steps: seq<FetchStep>)
    requires cfg.dedup == MarkAhead && HandledAreMarked(live.world)
    ensures HandledAreMarked(Drain(cfg, live, floor, stats, steps).live.world)
    decreases |steps|
  {
    hide OnePage, SiftPage, Tally, HandledAreMarked;
    if steps != [] && steps[0].Yields? {
      var page, answers := steps[0].page, steps[0].answers;
      OnePageMarksAhead(cfg, live, floor, stats, page, answers);
      var p := OnePage(cfg, live, floor, stats, page, answers);
      DrainMarksAhead(cfg, p.live, floor, Tally(stats, page, SiftPage(cfg, live.world, page, answers)), steps[1..]);
    }
  }

  lemma {:induction false} RetryMarksAhead(cfg: Config, live: Live, attempts: seq<Attempt>)
    requires cfg.dedup == MarkAhead && HandledAreMarked(live.world)
    ensures HandledAreMarked(Retry(cfg, live, attempts).live.world)
    decreases |attempts|
  {
    if attempts != [] {
      var run := live.run.(attemptStats := NO_STATS);
      DrainMarksAhead(cfg, live.(run := run), WatermarkFloor(run.cursor), NO_STATS,
                      attempts[0].fetch(EffectiveStart(run.cursor, cfg.overlap)));
      RetryMarksAhead(cfg, DrainAttempt(cfg, live, attempts[0]).live, attempts[1..]);
    }
  }

  lemma {:induction false} HistoryMarksAhead(cfg: Config, w: World, scripts: seq<RunScript>)
    requires cfg.dedup == MarkAhead && HandledAreMarked(w)
    ensures HandledAreMarked(History(cfg, w, scripts))
  {
    if scripts != [] {
      var n := |scripts| - 1;
      HistoryMarksAhead(cfg, w, scripts[..n]);
      hide Retry;
      RetryMarksAhead(cfg, Begin(History(cfg, w, scripts[..n])), scripts[n].attempts);
    }
  }

  /**
   With keys marked ahead, exactly these records are lost below the stored watermark: those that did not
   get through and whose every marked key is an orphan, left by a record that did not get through either.
   */
  lemma LostIffOrphaned(cfg: Config, source: set<Record>, w: World, scripts: seq<RunScript>, r: Record)
    requires cfg.dedup == MarkAhead && Untouched(w) && HonestHistory(cfg, source, w, scripts)
    requires r in source && After(StoredMark(w), r) && UpTo(StoredMark(History(cfg, w, scripts)), r)
    ensures var w' := History(cfg, w, scripts);
            !Represented(w', r) <==>
              && !Handled(w', r)
              && (exists m :: m in w'.marks && m.key in Keys(r))
              && forall m :: m in w'.marks && m.key in Keys(r) ==> !Handled(w', m.owner)
  {
    UntouchedIsSafe(cfg, source, w);
    HistoryIsSafe(cfg, source, w, scripts);
    HistoryMarksAhead(cfg, w, scripts);
    hide History;
    var w' := History(cfg, w, scripts);
    if m :| m in w'.marks && m.key in Keys(r) && Handled(w', m.owner) {
      assert m.key in Keys(r) * Keys(m.owner);
    }
    if Represented(w', r) && !Handled(w', r) {
      var other :| Handled(w', other) && Keys(r) * Keys(other) != {};
      var k :| k in Keys(r) * Keys(other);
      assert Mark(k, other) in w'.marks;
    }
  }

  // -------------------------------------------------------- the losing run

  const EMPTY_WORLD := World([], [], None, [], {}, {})

  function PageOf(r: Record): FetchPage
  {
    FetchPage([r], FRESH.(watermark := Some(r.time)))
  }

  /** A provider with one record, met by the given answers. */
  function OneRecordRun(r: Record, answers: Answers): RunScript
  {
    RunScript([Attempt((start: Cursor) => [Yields(PageOf(r), answers)])], false, true)
  }

  /** The broker fails on the first run; the second run replays the page undisturbed. */
  function PublishFails(): Answers { Answers({}, None, [Stored], [Some(Escapes)], None) }

  function Undisturbed(): Answers { Answers({}, None, [Stored], [None], None) }

  /** Its provider yields its record whatever it is asked. */
  lemma OneRecordRunIsHonest(cfg: Config, r: Record, answers: Answers, covered: set<Record>, w: World)
    ensures HonestRetry(cfg, {r}, covered, Begin(w), OneRecordRun(r, answers).attempts)
  {
    hide DrainAttempt, Begin;
    var attempts := OneRecordRun(r, answers).attempts;
    var start := EffectiveStart(Begin(w).run.cursor, cfg.overlap);
    var steps := attempts[0].fetch(start);
    assert steps == [Yields(PageOf(r), answers)] && steps[1..] == [];
    assert r in PageOf(r).records;
    assert Honest({r}, start.watermark, covered, steps);
  }

  lemma SiftSingle(dedup: Dedup, start: Sifted, r: Record)
    ensures Sift(dedup, start, [r]) == SiftOne(dedup, start, r)
  {
    assert [r][..0] == [];
  }

  lemma FirstRunMarksOnly(cfg: Config, r: Record)
    requires cfg.dedup == MarkAhead && r.mapping.Mapped?
    ensures AfterRun(cfg, EMPTY_WORLD, OneRecordRun(r, PublishFails()))
         == EMPTY_WORLD.(seen := Keys(r), marks := MarksOf(r))
  {
    var live := Begin(EMPTY_WORLD);
    var step := Yields(PageOf(r), PublishFails());
    var sifted := SiftPage(cfg, EMPTY_WORLD, PageOf(r), PublishFails());
    SiftSingle(cfg.dedup, Sifted([], 0, 0, 0, {}, {}), r);
    assert ({} + Keys(r)) == Keys(r) && ({} + MarksOf(r)) == MarksOf(r) && EMPTY_WORLD.seen - {} == {};
    assert sifted == Sifted([r], 0, 0, 0, Keys(r), MarksOf(r));
    assert [r][..0] == [];
    assert ArchiveAll([r], [Stored]) == Archived([Message(r, true)], [], 0, None);
    var attempt := OneRecordRun(r, PublishFails()).attempts[0];
    assert attempt.fetch(EffectiveStart(FRESH, cfg.overlap)) == [step];
  }

  lemma DrainOfOneStep(cfg: Config, live: Live, floor: Option<int>, stats: Stats, page: FetchPage, answers: Answers)
    ensures var p := OnePage(cfg, live, floor, stats, page, answers);
            var q := Drain(cfg, live, floor, stats, [Yields(page, answers)]);
            q.live == p.live && q.stop == p.stop
  {
    hide OnePage, SiftPage, Tally;
    assert [Yields(page, answers)][1..] == [];
  }

  lemma SecondRunSkipsAndCommits(cfg: Config, r: Record, w: World)
    requires cfg.dedup == MarkAhead && r.mapping.Mapped?
    requires w == EMPTY_WORLD.(seen := Keys(r), marks := MarksOf(r))
    ensures var w' := AfterRun(cfg, w, OneRecordRun(r, Undisturbed()));
            w'.acked == [] && w'.parked == [] && StoredMark(w') == Some(r.time)
  {
    var sifted := SiftPage(cfg, w, PageOf(r), Undisturbed());
    SiftSingle(cfg.dedup, Sifted([], 0, 0, 0, w.seen, w.marks), r);
    assert Identity(r.mapping.identity) in Keys(r) * w.seen && w.seen - {} == w.seen;
    assert sifted.emitted == [] && sifted.marks == w.marks;
    var attempt, answers := OneRecordRun(r, Undisturbed()).attempts[0], Undisturbed();
    var steps := attempt.fetch(EffectiveStart(FRESH, cfg.overlap));
    assert steps == [Yields(PageOf(r), answers)] && steps[1..] == [];
    var live := Begin(w);
    var p := OnePage(cfg, live, None, NO_STATS, PageOf(r), answers);
    assert p.stop.None? && p.live.world.acked == [] && p.live.world.parked == [];
    assert StoredMark(p.live.world) == Some(r.time);
    var q := DrainAttempt(cfg, live, attempt);
    DrainOfOneStep(cfg, live, None, NO_STATS, PageOf(r), answers);
    assert q == Drain(cfg, live, None, NO_STATS, steps);
    assert q.stop.None? && q.live.world == p.live.world;
  }

  /**
   As the source marks ahead of the ack, every record can be lost: a publish failure leaves it
   marked, the replay drops it as its own duplicate, and the cursor is committed past it.
   */
  lemma EveryRecordCanBeLost(cfg: Config, r: Record)
    requires cfg.dedup == MarkAhead && r.mapping.Mapped?
    ensures var scripts := [OneRecordRun(r, PublishFails()), OneRecordRun(r, Undisturbed())];
            && HonestHistory(cfg, {r}, EMPTY_WORLD, scripts)
            && UpTo(StoredMark(History(cfg, EMPTY_WORLD, scripts)), r)
            && !Represented(History(cfg, EMPTY_WORLD, scripts), r)
  {
    var first, second := OneRecordRun(r, PublishFails()), OneRecordRun(r, Undisturbed());
    var base := Covered(cfg, {r}, EMPTY_WORLD, []);
    OneRecordRunIsHonest(cfg, r, PublishFails(), base, EMPTY_WORLD);
    OneRecordRunIsHonest(cfg, r, Undisturbed(), Covered(cfg, {r}, EMPTY_WORLD, [first]),
                         AfterRun(cfg, EMPTY_WORLD, first));
    FirstRunMarksOnly(cfg, r);
    SecondRunSkipsAndCommits(cfg, r, AfterRun(cfg, EMPTY_WORLD, first));
    hide AfterRun, HonestRetry, RetryFinished;
    assert [first, second][..1] == [first] && [first][..0] == [];
    assert History(cfg, EMPTY_WORLD, [first]) == AfterRun(cfg, EMPTY_WORLD, first);
    assert HonestHistory(cfg, {r}, EMPTY_WORLD, []) && History(cfg, EMPTY_WORLD, []) == EMPTY_WORLD;
    assert HonestHistory(cfg, {r}, EMPTY_WORLD, [first]);
    assert [first, second][1] == second;
  }

  /** The promise holds exactly when nothing is marked ahead of its ack. */
  lemma AtLeastOnceIffNotMarkedAhead(cfg: Config)
    ensures AtLeastOnce(cfg) <==> cfg.dedup != MarkAhead
  {
    if cfg.dedup == MarkAhead {
      var r := Record(0, 0, Mapped(0, None));
      EveryRecordCanBeLost(cfg, r);
      var scripts := [OneRecordRun(r, PublishFails()), OneRecordRun(r, Undisturbed())];
      hide History;
      assert HonestHistory(cfg, {r}, EMPTY_WORLD, scripts) && Untouched(EMPTY_WORLD);
      assert !KeepsPromise({r}, EMPTY_WORLD, History(cfg, EMPTY_WORLD, scripts));
    } else {
      hide History, KeepsPromise;
      forall source, w, scripts | Untouched(w) && HonestHistory(cfg, source, w, scripts)
        ensures KeepsPromise(source, w, History(cfg, w, scripts))
      {
        PromiseKept(cfg, source, w, scripts);
      }
    }
  }
}
