/**
 What one run of the ingestion runtime does to the outside world, as a function of what the
 outside world answers.

 A script says, page by page, what the provider yields and how normalization, the archive, the broker,
 the dead-letter topic and the cursor store respond. A script that runs out is a process that died there;
 sifting a page, committing its cursor and writing a checkpoint have answers of their own. So there is a
 script for every point at which a run can be interrupted.
 */
module Ingestion {
  import opened Options
  import opened Connectors

  // ------------------------------------------------------------ the outside

  /** The four families of `ConnectorError`, by what the runtime does about them. */
  datatype Failure = Auth | Quota | Transient | Permanent

  /** How a call ends early: a connector error, or anything else, a dead process included. */
  datatype Stop = Failed(failure: Failure) | Escapes

  /** One archive call. `Rejected` sends the record to the dead-letter topic. */
  datatype Archive = Stored | Deferred | Rejected(parked: bool) | ArchiveStops(stop: Stop)

  /**
   An interruption while a page is sifted: so many records were through, and of the keys of the next one
   these had been marked.
   */
  datatype Cut = Cut(through: nat, marked: set<Key>, stop: Stop)

  /**
   What the outside answers while one page is sifted and its batch made durable: the keys the seen-set
   has forgotten, an interruption of the sifting, the archive's answers, an ack or an end for each event
   (`None` is an ack), and how writing the cursor ended if it did not succeed.
   */
  datatype Answers = Answers(expired: set<Key>, cut: Option<Cut>, archives: seq<Archive>, acks: seq<Option<Stop>>,
                             commit: Option<Stop>)

  /** One step of the `fetch` generator: a page, or an exception. */
  datatype FetchStep = Yields(page: FetchPage, answers: Answers) | Raises(stop: Stop)

  /** One re-entry of `_drain`: the provider seen from whatever cursor it is asked from. */
  datatype Attempt = Attempt(fetch: Cursor -> seq<FetchStep>)

  /**
   One run: the attempts `retry_page` makes, none if the circuit is open, whether the last transient
   error was turned into a quota error by a long `Retry-After`, and whether the checkpoint a quota halt
   asks for is written.
   */
  datatype RunScript = RunScript(attempts: seq<Attempt>, converted: bool, checkpointed: bool)

  /**
   Whether the seen-set is absent, marked before the batch is yielded, as the source does, or
   marked only once the batch is durable, as the source does not.
   */
  datatype Dedup = Absent | MarkAhead | MarkAfterAck

  datatype Config = Config(dedup: Dedup, overlap: nat, maxPages: Option<int>, maxRecords: Option<int>)

  /** A message on the raw topic; `archived` is false when `raw_object_key` is `None`. */
  datatype Message = Message(record: Record, archived: bool)

  /** A key in the seen-set and the record that put it there. */
  datatype Mark = Mark(key: Key, owner: Record)

  /** Everything durable: the two topics, the cursor row with its history, and the seen-set. */
  datatype World = World(acked: seq<Message>, parked: seq<Record>, stored: Option<Cursor>, commits: seq<Cursor>,
                         seen: set<Key>, marks: set<Mark>)

  // -------------------------------------------------------------- the run

  datatype Stats = Stats(fetched: int, emitted: int, dropped: int, duplicates: int, dlq: int, pages: int)

  const NO_STATS := Stats(0, 0, 0, 0, 0, 0)

  /** `_RunState`. `totals.emitted` stays 0: the runtime counts acks in `emitted` instead. */
  datatype Run = Run(cursor: Cursor, emitted: int, totals: Stats, attemptStats: Stats)

  /** `_RunState.absorb`. */
  function Absorb(run: Run, stats: Stats): Run
  {
    var t, a := run.totals, run.attemptStats;
    run.(attemptStats := stats,
         totals := t.(fetched := t.fetched + (stats.fetched - a.fetched),
                      dropped := t.dropped + (stats.dropped - a.dropped),
                      duplicates := t.duplicates + (stats.duplicates - a.duplicates),
                      dlq := t.dlq + (stats.dlq - a.dlq),
                      pages := t.pages + (stats.pages - a.pages)))
  }

  /** What `_normalize_and_dedup` makes of the first records of a page. */
  datatype Sifted = Sifted(emitted: seq<Record>, dropped: int, duplicates: int, dlq: int, seen: set<Key>,
                           marks: set<Mark>)

  function MarksOf(r: Record): set<Mark>
  {
    set k | k in Keys(r) :: Mark(k, r)
  }

  function SiftOne(dedup: Dedup, s: Sifted, r: Record): Sifted
  {
    if r.mapping.Unmappable? then s.(dlq := s.dlq + 1)
    else if r.mapping.Dropped? then s.(dropped := s.dropped + 1)
    else if dedup.Absent? then s.(emitted := s.emitted + [r])
    else if Keys(r) * s.seen != {} then s.(duplicates := s.duplicates + 1)
    else if dedup.MarkAfterAck? then s.(emitted := s.emitted + [r])
    else s.(emitted := s.emitted + [r], seen := s.seen + Keys(r), marks := s.marks + MarksOf(r))
  }

  function Sift(dedup: Dedup, start: Sifted, records: seq<Record>): Sifted
  {
    if records == [] then start
    else SiftOne(dedup, Sift(dedup, start, records[..|records| - 1]), records[|records| - 1])
  }

  /** The seen-set an interrupted sifting leaves. */
  function SiftUntil(dedup: Dedup, start: Sifted, records: seq<Record>, cut: Cut): Sifted
  {
    var n := if cut.through < |records| then cut.through else |records|;
    var s := Sift(dedup, start, records[..n]);
    if n < |records| && dedup.MarkAhead? && Keys(records[n]) * s.seen == {} then
      var keys := Keys(records[n]) * cut.marked;
      s.(seen := s.seen + keys, marks := s.marks + set k | k in keys :: Mark(k, records[n]))
    else s
  }

  /** Step 1 of `_persist_batch` so far: events built, records parked, and how it ended if it did. */
  datatype Archived = Archived(events: seq<Message>, parked: seq<Record>, counted: int, stop: Option<Stop>)

  function AnswerTo(archives: seq<Archive>, i: nat): Archive
  {
    if i < |archives| then archives[i] else ArchiveStops(Escapes)
  }

  function ArchiveOne(a: Archived, r: Record, answer: Archive): Archived
  {
    match answer
    case Stored => a.(events := a.events + [Message(r, true)])
    case Deferred => a.(events := a.events + [Message(r, false)])
    case Rejected(true) => a.(parked := a.parked + [r], counted := a.counted + 1)
    case Rejected(false) => a.(counted := a.counted + 1, stop := Some(Escapes))
    case ArchiveStops(stop) => a.(stop := Some(stop))
  }

  function ArchiveAll(batch: seq<Record>, archives: seq<Archive>): (a: Archived)
    ensures a.stop.None? ==> |batch| == |a.events| + |a.parked| && a.counted == |a.parked|
    ensures |a.events| + a.counted <= |batch| && 0 <= a.counted
  {
    if batch == [] then Archived([], [], 0, None)
    else
      var n := |batch| - 1;
      var a := ArchiveAll(batch[..n], archives);
      if a.stop.Some? then a else ArchiveOne(a, batch[n], AnswerTo(archives, n))
  }

  /** Step 2 of `_persist_batch`: how many events are acked before the first that is not. */
  function Acked(events: seq<Message>, acks: seq<Option<Stop>>): (n: nat)
    ensures n <= |events|
  {
    if events == [] || acks == [] || acks[0].Some? then 0 else 1 + Acked(events[1..], acks[1..])
  }

  /** How the publish loop ended. */
  function PublishStop(events: seq<Message>, acks: seq<Option<Stop>>): (stop: Option<Stop>)
    ensures stop.None? <==> Acked(events, acks) == |events|
  {
    if events == [] then None
    else if acks == [] then Some(Escapes)
    else if acks[0].Some? then acks[0]
    else PublishStop(events[1..], acks[1..])
  }

  /** The two sides of a run: what is durable, and what the runtime remembers. */
  datatype Live = Live(world: World, run: Run)

  /** How a stretch of a run ended, and how many yielded records an interruption left unhandled. */
  datatype Progress = Progress(live: Live, stop: Option<Stop>, left: int)

  /** `_commit_cursor`. */
  function Commit(live: Live, cursor: Cursor): Live
  {
    if !Advances(cursor, live.run.cursor) then live
    else Live(live.world.(stored := Some(cursor), commits := live.world.commits + [cursor]),
              live.run.(cursor := cursor))
  }

  /** `_persist_batch`: archive everything, publish everything, and only then commit. */
  function Persist(live: Live, batch: seq<Record>, cursor: Cursor, answers: Answers): Progress
  {
    var a := ArchiveAll(batch, answers.archives);
    var parked := Live(live.world.(parked := live.world.parked + a.parked),
                       live.run.(totals := live.run.totals.(dlq := live.run.totals.dlq + a.counted)));
    if a.stop.Some? then Progress(parked, a.stop, |batch| - a.counted)
    else
      var n := Acked(a.events, answers.acks);
      var published := Live(parked.world.(acked := parked.world.acked + a.events[..n]),
                            parked.run.(emitted := parked.run.emitted + n));
      var stop := PublishStop(a.events, answers.acks);
      if stop.Some? then Progress(published, stop, |a.events| - n)
      else if Advances(cursor, published.run.cursor) && answers.commit.Some? then Progress(published, answers.commit, 0)
      else Progress(Commit(published, cursor), None, 0)
  }

  /** `_budget_exhausted`. */
  predicate BudgetExhausted(cfg: Config, stats: Stats)
  {
    (cfg.maxPages.Some? && stats.pages >= cfg.maxPages.value) ||
    (cfg.maxRecords.Some? && stats.emitted >= cfg.maxRecords.value)
  }

  function Tally(stats: Stats, page: FetchPage, sifted: Sifted): Stats
  {
    Stats(stats.fetched + |page.records|, stats.emitted + |sifted.emitted|, stats.dropped + sifted.dropped,
          stats.duplicates + sifted.duplicates, stats.dlq + sifted.dlq, stats.pages + 1)
  }

  /** The seen-set after a batch became durable, in the variant that marks only then. */
  function MarkDurable(dedup: Dedup, world: World, batch: seq<Record>): World
  {
    if !dedup.MarkAfterAck? then world
    else world.(seen := world.seen + (set r, k | r in batch && k in Keys(r) :: k),
                marks := world.marks + (set r, k | r in batch && k in Keys(r) :: Mark(k, r)))
  }

  /** The page sifted against the seen-set as it stands when the page arrives. */
  function SiftPage(cfg: Config, world: World, page: FetchPage, answers: Answers): Sifted
  {
    Sift(cfg.dedup, Sifted([], 0, 0, 0, world.seen - answers.expired, world.marks), page.records)
  }

  /** One page: fetched, sifted, absorbed and made durable. A page cut short is not even absorbed. */
  function OnePage(cfg: Config, live: Live, floor: Option<int>, stats: Stats, page: FetchPage,
                   answers: Answers): Progress
  {
    if answers.cut.Some? then
      var start := Sifted([], 0, 0, 0, live.world.seen - answers.expired, live.world.marks);
      var s := SiftUntil(cfg.dedup, start, page.records, answers.cut.value);
      Progress(live.(world := live.world.(seen := s.seen, marks := s.marks)), Some(answers.cut.value.stop), 0)
    else
      var sifted := SiftPage(cfg, live.world, page, answers);
      var absorbed := Live(live.world.(seen := sifted.seen, marks := sifted.marks),
                           Absorb(live.run, Tally(stats, page, sifted)));
      var p := Persist(absorbed, sifted.emitted, GuardWatermark(page.cursor, floor), answers);
      if p.stop.Some? then p
      else p.(live := p.live.(world := MarkDurable(cfg.dedup, p.live.world, sifted.emitted)))
  }

  /** `BaseConnector.run` driven by `_drain`: page after page until the source, the budget or luck ends. */
  function Drain(cfg: Config, live: Live, floor: Option<int>, stats: Stats, steps: seq<FetchStep>): Progress
    decreases |steps|
  {
    if steps == [] then Progress(live, None, 0)
    else
      match steps[0]
      case Raises(stop) => Progress(live, Some(stop), 0)
      case Yields(page, answers) =>
        var p := OnePage(cfg, live, floor, stats, page, answers);
        var stats' := Tally(stats, page, SiftPage(cfg, live.world, page, answers));
        if p.stop.Some? || BudgetExhausted(cfg, stats') then p
        else Drain(cfg, p.live, floor, stats', steps[1..])
  }

  /** `_drain`: resume from the last committed cursor, with fresh counters. */
  function DrainAttempt(cfg: Config, live: Live, attempt: Attempt): Progress
  {
    var run := live.run.(attemptStats := NO_STATS);
    Drain(cfg, live.(run := run), WatermarkFloor(run.cursor), NO_STATS,
          attempt.fetch(EffectiveStart(run.cursor, cfg.overlap)))
  }

  /** `retry_page` around `_drain`: a transient failure may be tried again. */
  function Retry(cfg: Config, live: Live, attempts: seq<Attempt>): Progress
    decreases |attempts|
  {
    if attempts == [] then Progress(live, Some(Failed(Quota)), 0)
    else
      var p := DrainAttempt(cfg, live, attempts[0]);
      if p.stop == Some(Failed(Transient)) && |attempts| > 1 then
        var q := Retry(cfg, p.live, attempts[1..]);
        q.(left := p.left + q.left)
      else p
  }

  /** `_checkpoint`. */
  function Checkpoint(live: Live): World
  {
    if live.run.cursor.IsEmpty() then live.world
    else live.world.(stored := Some(live.run.cursor), commits := live.world.commits + [live.run.cursor])
  }

  /** The state `ConnectorRuntime.run` starts from. */
  function Begin(world: World): Live
  {
    Live(world, Run(if world.stored.Some? then world.stored.value else FRESH, 0, NO_STATS, NO_STATS))
  }

  /** How the retry envelope ends, after a long `Retry-After` is turned into a quota error. */
  function Envelope(cfg: Config, world: World, script: RunScript): Progress
  {
    var p := Retry(cfg, Begin(world), script.attempts);
    if p.stop == Some(Failed(Transient)) && script.converted then p.(stop := Some(Failed(Quota))) else p
  }

  /** What one run leaves durable: a quota halt checkpoints if it gets that far, nothing else touches the store. */
  function AfterRun(cfg: Config, world: World, script: RunScript): World
  {
    var p := Envelope(cfg, world, script);
    if p.stop == Some(Failed(Quota)) && script.checkpointed then Checkpoint(p.live) else p.live.world
  }

  /** Any number of runs, one after the other. */
  function History(cfg: Config, world: World, scripts: seq<RunScript>): World
  {
    if scripts == [] then world
    else AfterRun(cfg, History(cfg, world, scripts[..|scripts| - 1]), scripts[|scripts| - 1])
  }
}
