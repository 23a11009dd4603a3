/**
 `ConnectorRuntime` and `_RunState` as objects, each method proved against the function of
 `Ingestion` that says what it does to the world.
 */
module ConnectorRuntimes {
  import opened Options
  import opened Connectors
  import opened Ingestion

  /** `_RunState`. */
  class RunState {
    var cursor: Cursor
    var emitted: int
    var totals: Stats
    var attemptStats: Stats

    function Value(): Run
      reads this
    {
      Run(cursor, emitted, totals, attemptStats)
    }

    constructor (cursor: Cursor)
      ensures Value() == Run(cursor, 0, NO_STATS, NO_STATS)
    {
      this.cursor := cursor;
      emitted, totals, attemptStats := 0, NO_STATS, NO_STATS;
    }

    /** `begin_attempt`. */
    method BeginAttempt()
      modifies this
      ensures Value() == old(Value()).(attemptStats := NO_STATS)
    {
      attemptStats := NO_STATS;
    }

    /** `absorb`. */
    method AbsorbStats(stats: Stats)
      modifies this
      ensures Value() == Absorb(old(Value()), stats)
    {
      totals := totals.(fetched := totals.fetched + (stats.fetched - attemptStats.fetched));
      totals := totals.(dropped := totals.dropped + (stats.dropped - attemptStats.dropped));
      totals := totals.(duplicates := totals.duplicates + (stats.duplicates - attemptStats.duplicates));
      totals := totals.(dlq := totals.dlq + (stats.dlq - attemptStats.dlq));
      totals := totals.(pages := totals.pages + (stats.pages - attemptStats.pages));
      attemptStats := stats;
    }
  }

  /** `SyncResult`, as far as it depends on the run. */
  datatype SyncResult = SyncResult(fetched: int, emitted: int, dropped: int, duplicates: int, dlq: int, pages: int,
                                   cursor: Cursor, error: Option<Failure>)

  /** The keys of a mapped record in the order `_is_duplicate` visits them. */
  function KeyList(r: Record): seq<Key>
  {
    match r.mapping
    case Mapped(id, Some(hash)) => [Identity(id), Content(hash)]
    case Mapped(id, None) => [Identity(id)]
    case _ => []
  }

  lemma KeyListIsKeys(r: Record)
    ensures forall k :: k in KeyList(r) <==> k in Keys(r)
  {
  }

  /** The runtime together with the four durable things it writes to. */
  class ConnectorRuntime {
    const cfg: Config
    var acked: seq<Message>
    var parked: seq<Record>
    var stored: Option<Cursor>
    var commits: seq<Cursor>
    var seen: set<Key>
    ghost var marks: set<Mark>

    ghost function Durable(): World
      reads this
    {
      World(acked, parked, stored, commits, seen, marks)
    }

    /** The source either has no seen-set or marks ahead of the yield. */
    constructor (cfg: Config, stored: Option<Cursor>)
      ensures this.cfg == cfg && Durable() == World([], [], stored, [], {}, {})
    {
      this.cfg := cfg;
      this.stored := stored;
      acked, parked, commits, seen, marks := [], [], [], {}, {};
    }

    // ------------------------------------------------------ BaseConnector

    /** The first loop of `_is_duplicate`. */
    method AnySeen(r: Record) returns (found: bool)
      ensures found <==> Keys(r) * seen != {}
    {
      KeyListIsKeys(r);
      var keys := KeyList(r);
      for i := 0 to |keys|
        invariant forall j :: 0 <= j < i ==> keys[j] !in seen
      {
        if keys[i] in seen {
          assert keys[i] in Keys(r) * seen;
          return true;
        }
      }
      found := false;
    }

    /** The second loop of `_is_duplicate`, as far as it gets: only the reached keys are marked. */
    method MarkKeys(r: Record, reached: set<Key>)
      modifies this`seen, this`marks
      ensures seen == old(seen) + Keys(r) * reached
      ensures marks == old(marks) + set k | k in Keys(r) * reached :: Mark(k, r)
    {
      KeyListIsKeys(r);
      var keys := KeyList(r);
      for i := 0 to |keys|
        invariant seen == old(seen) + (set j | 0 <= j < i && keys[j] in reached :: keys[j])
        invariant marks == old(marks) + (set j | 0 <= j < i && keys[j] in reached :: Mark(keys[j], r))
      {
        if keys[i] in reached {
          seen := seen + {keys[i]};
          marks := marks + {Mark(keys[i], r)};
        }
      }
      assert (set j | 0 <= j < |keys| && keys[j] in reached :: keys[j]) == Keys(r) * reached;
      assert (set j | 0 <= j < |keys| && keys[j] in reached :: Mark(keys[j], r))
          == (set k | k in Keys(r) * reached :: Mark(k, r));
    }

    /** `_is_duplicate`: look at both keys, then mark both. */
    method IsDuplicate(r: Record) returns (duplicate: bool)
      requires r.mapping.Mapped? && cfg.dedup != MarkAfterAck
      modifies this`seen, this`marks
      ensures duplicate == (cfg.dedup == MarkAhead && Keys(r) * old(seen) != {})
      ensures seen == old(seen) + (if cfg.dedup == MarkAhead && !duplicate then Keys(r) else {})
      ensures marks == old(marks) + (if cfg.dedup == MarkAhead && !duplicate then MarksOf(r) else {})
    {
      if cfg.dedup == Absent {
        return false;
      }
      duplicate := AnySeen(r);
      if !duplicate {
        MarkKeys(r, Keys(r));
        assert Keys(r) * Keys(r) == Keys(r);
      }
    }

    /** `_normalize_and_dedup` when an exception other than a `NormalizationError` ends it. */
    method SiftInterrupted(records: seq<Record>, cut: Cut)
      requires cfg.dedup != MarkAfterAck
      modifies this`seen, this`marks
      ensures var s := SiftUntil(cfg.dedup, Sifted([], 0, 0, 0, old(seen), old(marks)), records, cut);
              seen == s.seen && marks == s.marks
    {
      hide Sift;
      var n := if cut.through < |records| then cut.through else |records|;
      var _, _ := NormalizeAndDedup(records[..n], NO_STATS);
      if n < |records| && cfg.dedup == MarkAhead {
        var duplicate := AnySeen(records[n]);
        if !duplicate {
          MarkKeys(records[n], cut.marked);
        }
      }
    }

    /** `_normalize_and_dedup`. */
    method NormalizeAndDedup(records: seq<Record>, stats: Stats) returns (emitted: seq<Record>, stats': Stats)
      requires cfg.dedup != MarkAfterAck
      modifies this`seen, this`marks
      ensures var s := Sift(cfg.dedup, Sifted([], 0, 0, 0, old(seen), old(marks)), records);
              && emitted == s.emitted && seen == s.seen && marks == s.marks
              && stats' == Stats(stats.fetched, stats.emitted + |s.emitted|, stats.dropped + s.dropped,
                                 stats.duplicates + s.duplicates, stats.dlq + s.dlq, stats.pages)
    {
      emitted, stats' := [], stats;
      ghost var start := Sifted([], 0, 0, 0, seen, marks);
      ghost var s := start;
      for i := 0 to |records|
        invariant s == Sift(cfg.dedup, start, records[..i])
        invariant emitted == s.emitted && seen == s.seen && marks == s.marks
        invariant stats' == Stats(stats.fetched, stats.emitted + |s.emitted|, stats.dropped + s.dropped,
                                  stats.duplicates + s.duplicates, stats.dlq + s.dlq, stats.pages)
      {
        var record := records[i];
        assert records[..i + 1][..i] == records[..i];
        s := SiftOne(cfg.dedup, s, record);
        if record.mapping.Unmappable? {
          stats' := stats'.(dlq := stats'.dlq + 1);
          continue;
        }
        if record.mapping.Dropped? {
          stats' := stats'.(dropped := stats'.dropped + 1);
          continue;
        }
        var duplicate := IsDuplicate(record);
        if duplicate {
          stats' := stats'.(duplicates := stats'.duplicates + 1);
          continue;
        }
        emitted := emitted + [record];
        stats' := stats'.(emitted := stats'.emitted + 1);
      }
      assert records[..|records|] == records;
    }

    // ---------------------------------------------------- ConnectorRuntime

    /** `_archive_record` and `_to_dlq`: an event, or nothing for a record that was parked. */
    method ArchiveRecord(record: Record, answer: Archive, state: RunState)
      returns (event: Option<Message>, stop: Option<Stop>)
      modifies this`parked, state`totals
      ensures ArchiveOne(Archived([], [], 0, None), record, answer)
           == Archived(if event.Some? then [event.value] else [],
                       if answer == Rejected(true) then [record] else [],
                       state.totals.dlq - old(state.totals.dlq), stop)
      ensures parked == old(parked) + if answer == Rejected(true) then [record] else []
      ensures stop.Some? ==> event.None?
      ensures state.totals == old(state.totals).(dlq := state.totals.dlq)
    {
      event, stop := None, None;
      match answer
      case Stored => event := Some(Message(record, true));
      case Deferred => event := Some(Message(record, false));
      case Rejected(durable) =>
        state.totals := state.totals.(dlq := state.totals.dlq + 1);
        if durable {
          parked := parked + [record];
        } else {
          stop := Some(Escapes);
        }
      case ArchiveStops(s) => stop := Some(s);
    }

    /** `_commit_cursor`: a cursor that falls behind is refused before the store is asked. */
    method CommitCursor(cursor: Cursor, answer: Option<Stop>, state: RunState) returns (stop: Option<Stop>)
      modifies this`stored, this`commits, state`cursor
      ensures stop == if Advances(cursor, old(state.cursor)) then answer else None
      ensures stop.None? ==> Live(Durable(), state.Value()) == Commit(Live(old(Durable()), old(state.Value())), cursor)
      ensures stop.Some? ==> Durable() == old(Durable()) && state.Value() == old(state.Value())
    {
      stop := None;
      if !Advances(cursor, state.cursor) {
        return;
      }
      if answer.Some? {
        return answer;
      }
      stored := Some(cursor);
      commits := commits + [cursor];
      state.cursor := cursor;
    }

    /** The archive loop of `_persist_batch`. */
    method ArchiveBatch(batch: seq<Record>, archives: seq<Archive>, state: RunState)
      returns (events: seq<Message>, stop: Option<Stop>)
      modifies this`parked, state`totals
      ensures var a := ArchiveAll(batch, archives);
              && events == a.events && stop == a.stop
              && parked == old(parked) + a.parked
              && state.totals == old(state.totals).(dlq := old(state.totals.dlq) + a.counted)
    {
      hide ArchiveAll, ArchiveOne;
      events, stop := [], None;
      ghost var a := Archived([], [], 0, None);
      ArchiveNothing(archives);
      for i := 0 to |batch|
        invariant a == ArchiveAll(batch[..i], archives) && a.stop == stop == None
        invariant events == a.events && parked == old(parked) + a.parked
        invariant state.totals == old(state.totals).(dlq := old(state.totals.dlq) + a.counted)
      {
        var event;
        event, stop := ArchiveRecord(batch[i], AnswerTo(archives, i), state);
        ArchiveStep(batch[..i], batch[i], archives);
        ArchiveOneAdds(a, batch[i], AnswerTo(archives, i));
        assert batch[..i] + [batch[i]] == batch[..i + 1];
        a := ArchiveOne(a, batch[i], AnswerTo(archives, i));
        if stop.Some? {
          ArchiveStopSticks(batch, archives, i + 1);
          return;
        }
        if event.Some? {
          events := events + [event.value];
        }
      }
      assert batch[..|batch|] == batch;
    }

    /** `_persist_batch`: archive, publish, commit, in that order. */
    method PersistBatch(batch: seq<Record>, cursor: Cursor, answers: Answers, state: RunState)
      returns (stop: Option<Stop>)
      modifies this`acked, this`parked, this`stored, this`commits, state
      ensures var p := Persist(Live(old(Durable()), old(state.Value())), batch, cursor, answers);
              Live(Durable(), state.Value()) == p.live && stop == p.stop
    {
      hide ArchiveAll, Acked, PublishStop;
      var events;
      events, stop := ArchiveBatch(batch, answers.archives, state);
      if stop.Some? {
        return;
      }
      label archived:
      for i := 0 to |events|
        invariant Durable() == old@archived(Durable()).(acked := old@archived(acked) + events[..i])
        invariant state.Value() == old@archived(state.Value()).(emitted := old@archived(state.emitted) + i)
        invariant i <= |answers.acks|
        invariant Acked(events, answers.acks) == i + Acked(events[i..], answers.acks[i..])
        invariant PublishStop(events, answers.acks) == PublishStop(events[i..], answers.acks[i..])
      {
        PublishStep(events[i..], answers.acks[i..]);
        var ack := if i < |answers.acks| then answers.acks[i] else Some(Escapes);
        if ack.Some? {
          stop := ack;
          assert Acked(events, answers.acks) == i && PublishStop(events, answers.acks) == ack;
          return;
        }
        assert events[i..][1..] == events[i + 1..] && answers.acks[i..][1..] == answers.acks[i + 1..];
        acked := acked + [events[i]];
        state.emitted := state.emitted + 1;
      }
      PublishStep(events[|events|..], answers.acks[|events|..]);
      assert Acked(events, answers.acks) == |events| && PublishStop(events, answers.acks) == None;
      assert events[..|events|] == events;
      stop := CommitCursor(cursor, answers.commit, state);
    }

    /** `_drain`, with the generator `BaseConnector.run` unrolled into it. */
    method DrainOnce(attempt: Attempt, state: RunState) returns (stop: Option<Stop>)
      requires cfg.dedup != MarkAfterAck
      modifies this, state
      ensures var p := DrainAttempt(cfg, Live(old(Durable()), old(state.Value())), attempt);
              Live(Durable(), state.Value()) == p.live && stop == p.stop
    {
      hide Persist, Sift;
      state.BeginAttempt();
      var floor := WatermarkFloor(state.cursor);
      var steps := attempt.fetch(EffectiveStart(state.cursor, cfg.overlap));
      var stats := NO_STATS;
      ghost var whole := Drain(cfg, Live(Durable(), state.Value()), floor, stats, steps);
      var i := 0;
      while i < |steps|
        invariant 0 <= i <= |steps|
        invariant Drain(cfg, Live(Durable(), state.Value()), floor, stats, steps[i..]).live == whole.live
        invariant Drain(cfg, Live(Durable(), state.Value()), floor, stats, steps[i..]).stop == whole.stop
      {
        assert steps[i..][1..] == steps[i + 1..];
        if steps[i].Raises? {
          return Some(steps[i].stop);
        }
        var page, answers := steps[i].page, steps[i].answers;
        ghost var live := Live(Durable(), state.Value());
        DrainStep(cfg, live, floor, stats, steps[i..]);
        stop, stats := TakePage(page, answers, floor, stats, state);
        if stop.Some? || BudgetExhausted(cfg, stats) {
          return;
        }
        i := i + 1;
      }
      stop := None;
    }

    /** One turn of the generator and of the loop that consumes it. */
    method TakePage(page: FetchPage, answers: Answers, floor: Option<int>, stats: Stats, state: RunState)
      returns (stop: Option<Stop>, stats': Stats)
      requires cfg.dedup != MarkAfterAck
      modifies this, state
      ensures var live := Live(old(Durable()), old(state.Value()));
              var p := OnePage(cfg, live, floor, stats, page, answers);
              && Live(Durable(), state.Value()) == p.live && stop == p.stop
              && (stop.None? ==> stats' == Tally(stats, page, SiftPage(cfg, old(Durable()), page, answers)))
    {
      hide Persist, Sift;
      seen := seen - answers.expired;
      stats' := stats.(pages := stats.pages + 1, fetched := stats.fetched + |page.records|);
      if answers.cut.Some? {
        SiftInterrupted(page.records, answers.cut.value);
        return Some(answers.cut.value.stop), stats';
      }
      var emitted;
      emitted, stats' := NormalizeAndDedup(page.records, stats');
      state.AbsorbStats(stats');
      stop := PersistBatch(emitted, GuardWatermark(page.cursor, floor), answers, state);
    }

    /** `_checkpoint`. */
    method CheckpointCursor(state: RunState)
      modifies this`stored, this`commits
      ensures Durable() == Checkpoint(Live(old(Durable()), state.Value()))
    {
      if state.cursor.IsEmpty() {
        return;
      }
      stored := Some(state.cursor);
      commits := commits + [state.cursor];
    }

    /** `run`: no result when something other than a connector error escapes, from the checkpoint included. */
    method RunConnector(script: RunScript) returns (result: Option<SyncResult>)
      requires cfg.dedup != MarkAfterAck
      modifies this
      ensures Durable() == AfterRun(cfg, old(Durable()), script)
      ensures var p := Envelope(cfg, old(Durable()), script);
              && (result.None? <==> p.stop == Some(Escapes) ||
                                    (p.stop == Some(Failed(Quota)) && !script.checkpointed))
              && (result.Some? ==>
                    var run := p.live.run;
                    result.value == SyncResult(run.totals.fetched, run.emitted, run.totals.dropped,
                                               run.totals.duplicates,
                                               run.totals.dlq, run.totals.pages, run.cursor,
                                               if p.stop.Some? then Some(p.stop.value.failure) else None))
    {
      hide DrainAttempt;
      var state := new RunState(if stored.Some? then stored.value else FRESH);
      ghost var whole := Retry(cfg, Live(Durable(), state.Value()), script.attempts);
      var stop := Some(Failed(Quota));
      var i := 0;
      while i < |script.attempts|
        invariant 0 <= i <= |script.attempts|
        invariant i == |script.attempts| ==>
          Live(Durable(), state.Value()) == whole.live && stop == whole.stop
        invariant i < |script.attempts| ==>
          var rest := Retry(cfg, Live(Durable(), state.Value()), script.attempts[i..]);
          rest.live == whole.live && rest.stop == whole.stop
      {
        assert script.attempts[i..][1..] == script.attempts[i + 1..];
        stop := DrainOnce(script.attempts[i], state);
        if stop != Some(Failed(Transient)) {
          break;
        }
        i := i + 1;
      }
      if stop == Some(Failed(Transient)) && script.converted {
        stop := Some(Failed(Quota));
      }
      if stop == Some(Escapes) {
        return None;
      }
      if stop == Some(Failed(Quota)) {
        if !script.checkpointed {
          return None;
        }
        CheckpointCursor(state);
      }
      result := Some(SyncResult(state.totals.fetched, state.emitted, state.totals.dropped, state.totals.duplicates,
                                state.totals.dlq, state.totals.pages, state.cursor,
                                if stop.Some? then Some(stop.value.failure) else None));
    }
  }

  lemma ArchiveNothing(archives: seq<Archive>)
    ensures ArchiveAll([], archives) == Archived([], [], 0, None)
  {
  }

  /** Archiving one more record adds what archiving it alone gives. */
  lemma ArchiveOneAdds(a: Archived, r: Record, answer: Archive)
    requires a.stop.None?
    ensures var one := ArchiveOne(Archived([], [], 0, None), r, answer);
            ArchiveOne(a, r, answer) == Archived(a.events + one.events, a.parked + one.parked,
                                                 a.counted + one.counted, one.stop)
  {
  }

  lemma ArchiveStep(batch: seq<Record>, r: Record, archives: seq<Archive>)
    requires ArchiveAll(batch, archives).stop.None?
    ensures ArchiveAll(batch + [r], archives) == ArchiveOne(ArchiveAll(batch, archives), r, AnswerTo(archives, |batch|))
  {
    assert (batch + [r])[..|batch|] == batch;
  }

  /** Once archiving has stopped, the rest of the batch is not looked at. */
  lemma {:induction false} ArchiveStopSticks(batch: seq<Record>, archives: seq<Archive>, i: nat)
    requires i <= |batch| && ArchiveAll(batch[..i], archives).stop.Some?
    ensures ArchiveAll(batch, archives) == ArchiveAll(batch[..i], archives)
    decreases |batch|
  {
    if i < |batch| {
      var n := |batch| - 1;
      assert batch[..n][..i] == batch[..i];
      ArchiveStopSticks(batch[..n], archives, i);
    } else {
      assert batch[..i] == batch;
    }
  }

  lemma PublishStep(events: seq<Message>, acks: seq<Option<Stop>>)
    ensures events == [] ==> Acked(events, acks) == 0 && PublishStop(events, acks) == None
    ensures events != [] && acks == [] ==> Acked(events, acks) == 0 && PublishStop(events, acks) == Some(Escapes)
    ensures events != [] && acks != [] && acks[0].Some? ==>
      Acked(events, acks) == 0 && PublishStop(events, acks) == acks[0]
    ensures events != [] && acks != [] && acks[0].None? ==>
              Acked(events, acks) == 1 + Acked(events[1..], acks[1..]) &&
              PublishStop(events, acks) == PublishStop(events[1..], acks[1..])
  {
  }

  lemma DrainStep(cfg: Config, live: Live, floor: Option<int>, stats: Stats, steps: seq<FetchStep>)
    requires steps != [] && steps[0].Yields?
    ensures var page, answers := steps[0].page, steps[0].answers;
            var p := OnePage(cfg, live, floor, stats, page, answers);
            var stats' := Tally(stats, page, SiftPage(cfg, live.world, page, answers));
            Drain(cfg, live, floor, stats, steps)
            == if p.stop.Some? || BudgetExhausted(cfg, stats') then p else Drain(cfg, p.live, floor, stats', steps[1..])
  {
  }
}
