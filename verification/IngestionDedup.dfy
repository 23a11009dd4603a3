/**
 What the seen-set does, on identities and content hashes: a record is skipped exactly if one of the two
 was marked before, and as long as nothing is forgotten no item and no content is published twice.
 */
module IngestionDedup {
  import opened Options
  import opened Connectors
  import opened Ingestion
  import opened IngestionSafety

  /** One item, or two with the same content. */
  predicate Duplicates(a: Record, b: Record)
  {
    && a.mapping.Mapped? && b.mapping.Mapped?
    && (a.mapping.identity == b.mapping.identity ||
        (a.mapping.content.Some? && a.mapping.content == b.mapping.content))
  }

  /** The identity of the record, or the hash of its content if it has one, is in the set. */
  predicate MarkedIn(r: Record, seen: set<Key>)
  {
    && r.mapping.Mapped?
    && (Identity(r.mapping.identity) in seen ||
        (r.mapping.content.Some? && Content(r.mapping.content.value) in seen))
  }

  predicate HasKey(r: Record, key: Key)
  {
    && r.mapping.Mapped?
    && match key
       case Identity(id) => r.mapping.identity == id
       case Content(hash) => r.mapping.content == Some(hash)
  }

  ghost predicate AllUnlike(records: seq<Record>)
  {
    forall i, j :: 0 <= i < j < |records| ==> !Duplicates(records[i], records[j])
  }

  lemma KeysAreBoth(r: Record, key: Key)
    ensures key in Keys(r) <==> HasKey(r, key)
  {
  }

  lemma DuplicatesShareAKey(a: Record, b: Record)
    ensures Duplicates(a, b) <==> exists key :: HasKey(a, key) && HasKey(b, key)
  {
    if Duplicates(a, b) {
      if a.mapping.identity == b.mapping.identity {
        assert HasKey(a, Identity(a.mapping.identity)) && HasKey(b, Identity(a.mapping.identity));
      } else {
        assert HasKey(a, Content(a.mapping.content.value)) && HasKey(b, Content(a.mapping.content.value));
      }
    }
  }

  lemma MarkedByAKey(r: Record, seen: set<Key>)
    ensures MarkedIn(r, seen) <==> exists key :: HasKey(r, key) && key in seen
  {
    if MarkedIn(r, seen) {
      var key := if Identity(r.mapping.identity) in seen then Identity(r.mapping.identity)
                 else Content(r.mapping.content.value);
      assert HasKey(r, key) && key in seen;
    }
  }

  /** The record after a page's first records: skipped iff its identity or its hash is marked by then. */
  lemma SkippedIffMarked(s: Sifted, r: Record)
    requires r.mapping.Mapped?
    ensures var s' := SiftOne(MarkAhead, s, r);
            if MarkedIn(r, s.seen) then s' == s.(duplicates := s.duplicates + 1)
            else && s'.emitted == s.emitted + [r] && s'.duplicates == s.duplicates
                 && forall key :: key in s'.seen <==> key in s.seen || HasKey(r, key)
  {
    forall key ensures key in Keys(r) <==> HasKey(r, key) { KeysAreBoth(r, key); }
    assert MarkedIn(r, s.seen) <==> Keys(r) * s.seen != {} by {
      if MarkedIn(r, s.seen) {
        assert Identity(r.mapping.identity) in Keys(r) * s.seen ||
               Content(r.mapping.content.value) in Keys(r) * s.seen;
      }
      if key :| key in Keys(r) * s.seen { assert HasKey(r, key) && key in s.seen; }
    }
    hide Keys, MarksOf;
  }

  /** What sifting a page leaves: unlike records, none of them marked before, and exactly their keys added. */
  ghost predicate SiftedUnlike(start: Sifted, s: Sifted)
  {
    && AllUnlike(s.emitted)
    && (forall r :: r in s.emitted ==> r.mapping.Mapped? && !MarkedIn(r, start.seen))
    && (forall key :: key in s.seen <==> key in start.seen || exists r :: r in s.emitted && HasKey(r, key))
  }

  lemma SiftOneUnlike(start: Sifted, s: Sifted, r: Record)
    requires SiftedUnlike(start, s) && start.seen <= s.seen
    ensures SiftedUnlike(start, SiftOne(MarkAhead, s, r))
  {
    if r.mapping.Mapped? {
      SkippedIffMarked(s, r);
      var s' := SiftOne(MarkAhead, s, r);
      hide SiftOne;
      if !MarkedIn(r, s.seen) {
        MarkedByAKey(r, s.seen);
        forall e | e in s.emitted ensures !Duplicates(e, r) { DuplicatesShareAKey(e, r); }
        forall key ensures key in s'.seen <==> key in start.seen || exists e :: e in s'.emitted && HasKey(e, key) {
          if HasKey(r, key) { assert r in s'.emitted; }
          if e :| e in s.emitted && HasKey(e, key) { assert e in s'.emitted; }
        }
      }
    }
  }

  lemma {:induction false} PageIsUnlike(start: Sifted, records: seq<Record>)
    requires start.emitted == []
    ensures SiftedUnlike(start, Sift(MarkAhead, start, records))
    ensures start.seen <= Sift(MarkAhead, start, records).seen
  {
    if records != [] {
      var n := |records| - 1;
      PageIsUnlike(start, records[..n]);
      SiftOneUnlike(start, Sift(MarkAhead, start, records[..n]), records[n]);
      hide SiftedUnlike;
    }
  }

  /**
   Record by record: the next mapped record of a page is skipped exactly if its identity or its hash was
   marked when the page came, or the page has emitted one like it; otherwise it is emitted.
   */
  lemma RecordIsSkippedIff(start: Sifted, records: seq<Record>, r: Record)
    requires start.emitted == [] && r.mapping.Mapped?
    ensures var before, after := Sift(MarkAhead, start, records), Sift(MarkAhead, start, records + [r]);
            var skipped := MarkedIn(r, start.seen) || exists e :: e in before.emitted && Duplicates(e, r);
            && after.emitted == before.emitted + (if skipped then [] else [r])
            && after.duplicates == before.duplicates + (if skipped then 1 else 0)
  {
    assert (records + [r])[..|records|] == records;
    var before := Sift(MarkAhead, start, records);
    PageIsUnlike(start, records);
    SkippedIffMarked(before, r);
    hide Sift, SiftOne;
    MarkedByAKey(r, start.seen);
    MarkedByAKey(r, before.seen);
    forall e | e in before.emitted
      ensures Duplicates(e, r) <==> exists key :: HasKey(e, key) && HasKey(r, key)
    {
      DuplicatesShareAKey(e, r);
    }
    hide Duplicates, MarkedIn, HasKey;
  }

  /**
   What an interrupted sifting leaves in the seen-set: what the records before would, and of the record it was
   at, unless that was marked already, the keys that were reached. So when the page comes again that record is
   skipped exactly if it would have been anyway or one of its keys was reached.
   */
  lemma InterruptedSiftMarks(start: Sifted, records: seq<Record>, cut: Cut)
    requires start.emitted == [] && cut.through < |records|
    ensures var before, after := Sift(MarkAhead, start, records[..cut.through]),
                                 SiftUntil(MarkAhead, start, records, cut);
            var r := records[cut.through];
            && (forall key :: key in after.seen <==>
                  key in before.seen || (HasKey(r, key) && key in cut.marked && !MarkedIn(r, before.seen)))
            && (MarkedIn(r, after.seen) <==>
                  MarkedIn(r, before.seen) || exists key :: HasKey(r, key) && key in cut.marked)
  {
    var before, r := Sift(MarkAhead, start, records[..cut.through]), records[cut.through];
    forall key ensures key in Keys(r) <==> HasKey(r, key) { KeysAreBoth(r, key); }
    var after := SiftUntil(MarkAhead, start, records, cut);
    hide Sift, Keys;
    MarkedByAKey(r, before.seen);
    MarkedByAKey(r, after.seen);
    assert MarkedIn(r, before.seen) <==> Keys(r) * before.seen != {} by {
      if key :| key in Keys(r) * before.seen { assert HasKey(r, key) && key in before.seen; }
      if MarkedIn(r, before.seen) {
        var key :| HasKey(r, key) && key in before.seen;
        assert key in Keys(r) * before.seen;
      }
    }
    hide MarkedIn, HasKey;
  }

  /** The same of a page of a run: apart from those marks an interruption leaves the world as it was. */
  lemma InterruptedPageLeavesItsMarks(cfg: Config, live: Live, floor: Option<int>, stats: Stats, page: FetchPage,
                                      answers: Answers)
    requires cfg.dedup == MarkAhead && answers.cut.Some? && answers.cut.value.through < |page.records|
    ensures var w, p := live.world, OnePage(cfg, live, floor, stats, page, answers);
            var cut, r := answers.cut.value, page.records[answers.cut.value.through];
            var before := Sift(MarkAhead, Sifted([], 0, 0, 0, w.seen - answers.expired, w.marks),
                               page.records[..cut.through]);
            && p.stop == Some(cut.stop) && p.live.run == live.run
            && p.live.world == w.(seen := p.live.world.seen, marks := p.live.world.marks)
            && (forall key :: key in p.live.world.seen <==>
                  key in before.seen || (HasKey(r, key) && key in cut.marked && !MarkedIn(r, before.seen)))
  {
    InterruptedSiftMarks(Sifted([], 0, 0, 0, live.world.seen - answers.expired, live.world.marks), page.records,
                         answers.cut.value);
    hide SiftUntil, Sift, MarkedIn, HasKey;
  }

  // ------------------------------------------------------------------ replays

  /** Every record of the page that maps has a key in the set. */
  ghost predicate AllKnown(records: seq<Record>, seen: set<Key>)
  {
    forall r :: r in records && r.mapping.Mapped? ==> Keys(r) * seen != {}
  }

  lemma {:induction false} KnownPagesEmitNothing(dedup: Dedup, start: Sifted, records: seq<Record>)
    requires dedup != Absent && AllKnown(records, start.seen)
    ensures var s := Sift(dedup, start, records); s.emitted == start.emitted && s.seen == start.seen
    decreases |records|
  {
    if records != [] {
      var n := |records| - 1;
      KnownPagesEmitNothing(dedup, start, records[..n]);
      assert records[n] in records;
      hide Keys;
    }
  }

  /** After sifting, every mapped record of the page has a key in the set, or is emitted and yet to be marked. */
  lemma {:induction false} SiftedAreKnown(dedup: Dedup, start: Sifted, records: seq<Record>)
    requires dedup != Absent && start.emitted == []
    ensures var s := Sift(dedup, start, records);
            && start.seen <= s.seen
            && forall r :: r in records && r.mapping.Mapped? ==>
                 Keys(r) * s.seen != {} || (dedup == MarkAfterAck && r in s.emitted)
    decreases |records|
  {
    if records != [] {
      var n := |records| - 1;
      SiftedAreKnown(dedup, start, records[..n]);
      var s, s', r := Sift(dedup, start, records[..n]), Sift(dedup, start, records), records[n];
      assert records == records[..n] + [r];
      if r.mapping.Mapped? { assert Identity(r.mapping.identity) in Keys(r); }
      assert s.seen <= s'.seen;
      forall x | x in records[..n] && x.mapping.Mapped? && Keys(x) * s.seen != {} ensures Keys(x) * s'.seen != {} {
        var key :| key in Keys(x) * s.seen;
        assert key in Keys(x) * s'.seen;
      }
      if r.mapping.Mapped? && Keys(r) * s.seen == {} && dedup == MarkAhead {
        assert Identity(r.mapping.identity) in Keys(r) * s'.seen;
      }
    }
  }

  /**
   A page that was made durable to its end and is yielded again emits nothing, marked ahead or marked after
   the ack, as long as the seen-set forgets nothing of it.
   */
  lemma DurablePagesAreNotRepeated(cfg: Config, live: Live, floor: Option<int>, stats: Stats, page: FetchPage,
                                   answers: Answers, again: Answers)
    requires cfg.dedup != Absent && OnePage(cfg, live, floor, stats, page, answers).stop.None?
    requires again.expired == {}
    ensures SiftPage(cfg, OnePage(cfg, live, floor, stats, page, answers).live.world, page, again).emitted == []
  {
    var start := Sifted([], 0, 0, 0, live.world.seen - answers.expired, live.world.marks);
    SiftedAreKnown(cfg.dedup, start, page.records);
    var sifted := SiftPage(cfg, live.world, page, answers);
    var w' := OnePage(cfg, live, floor, stats, page, answers).live.world;
    assert sifted.seen <= w'.seen &&
           (cfg.dedup == MarkAfterAck ==> forall r :: r in sifted.emitted ==> Keys(r) <= w'.seen) by {
      hide Sift, Keys, ArchiveAll, Acked, PublishStop, GuardWatermark;
    }
    hide OnePage, Sift;
    forall r | r in page.records && r.mapping.Mapped? ensures Keys(r) * w'.seen != {} {
      var key := if Keys(r) * sifted.seen != {} then (var k :| k in Keys(r) * sifted.seen; k)
                 else Identity(r.mapping.identity);
      assert key in Keys(r) * w'.seen;
    }
    KnownPagesEmitNothing(cfg.dedup, Sifted([], 0, 0, 0, w'.seen - again.expired, w'.marks), page.records);
  }

  // ------------------------------------------------------------------ histories

  function RecordsOf(messages: seq<Message>): seq<Record>
  {
    seq(|messages|, k requires 0 <= k < |messages| => messages[k].record)
  }

  /** What is on the topic is unlike, and its identities and hashes are in the seen-set. */
  ghost predicate Unrepeated(w: World)
  {
    && AllUnlike(RecordsOf(w.acked))
    && (forall msg, key :: msg in w.acked && HasKey(msg.record, key) ==> key in w.seen)
  }

  lemma {:induction false} EventsAreUnlike(batch: seq<Record>, archives: seq<Archive>)
    requires AllUnlike(batch)
    ensures var a := ArchiveAll(batch, archives);
            AllUnlike(RecordsOf(a.events)) && forall msg :: msg in a.events ==> msg.record in batch
  {
    if batch != [] {
      var n := |batch| - 1;
      assert AllUnlike(batch[..n]);
      EventsAreUnlike(batch[..n], archives);
      var a, a' := ArchiveAll(batch[..n], archives), ArchiveAll(batch, archives);
      forall k | 0 <= k < |a.events| ensures !Duplicates(a.events[k].record, batch[n]) {
        assert a.events[k] in a.events;
        var i :| 0 <= i < n && batch[..n][i] == a.events[k].record;
        assert batch[i] == a.events[k].record;
      }
      hide ArchiveAll, Duplicates;
      if a'.events != a.events {
        assert RecordsOf(a'.events) == RecordsOf(a.events) + [batch[n]];
      }
    }
  }

  /** Publishing more of what is unlike and was not marked keeps the topic unlike. */
  lemma PublishingKeepsUnlike(w: World, seen: set<Key>, batch: seq<Record>, events: seq<Message>)
    requires Unrepeated(w) && w.seen <= seen && AllUnlike(RecordsOf(events))
    requires forall msg :: msg in events ==> msg.record in batch
    requires forall r :: r in batch ==> !MarkedIn(r, w.seen) && forall key :: HasKey(r, key) ==> key in seen
    ensures Unrepeated(w.(acked := w.acked + events, seen := seen))
  {
    var all := w.acked + events;
    forall i, j | 0 <= i < j < |all| ensures !Duplicates(all[i].record, all[j].record) {
      if j < |w.acked| {
        assert RecordsOf(w.acked)[i] == all[i].record && RecordsOf(w.acked)[j] == all[j].record;
      } else if i >= |w.acked| {
        var x, y := i - |w.acked|, j - |w.acked|;
        assert RecordsOf(events)[x] == all[i].record && RecordsOf(events)[y] == all[j].record;
      } else {
        var a, b := all[i].record, all[j].record;
        assert all[i] in w.acked && all[j] in events;
        DuplicatesShareAKey(a, b);
        MarkedByAKey(b, w.seen);
      }
    }
  }

  lemma OnePageUnrepeated(cfg: Config, live: Live, floor: Option<int>, stats: Stats, page: FetchPage, answers: Answers)
    requires cfg.dedup == MarkAhead && Unrepeated(live.world) && answers.expired == {}
    ensures Unrepeated(OnePage(cfg, live, floor, stats, page, answers).live.world)
  {
    var w := live.world;
    var start := Sifted([], 0, 0, 0, w.seen - {}, w.marks);
    var p := OnePage(cfg, live, floor, stats, page, answers);
    if answers.cut.Some? {
      var cut := answers.cut.value;
      PageIsUnlike(start, page.records[..if cut.through < |page.records| then cut.through else |page.records|]);
      hide Sift, AllUnlike;
    } else {
      PageIsUnlike(start, page.records);
      var sifted := SiftPage(cfg, w, page, answers);
      hide Sift, AllUnlike, GuardWatermark, Absorb, Tally, Duplicates, MarkedIn, HasKey;
      EventsAreUnlike(sifted.emitted, answers.archives);
      hide ArchiveAll;
      var a := ArchiveAll(sifted.emitted, answers.archives);
      var n := if a.stop.Some? then 0 else Acked(a.events, answers.acks);
      PrefixIsUnlike(a.events, n);
      PublishingKeepsUnlike(w, sifted.seen, sifted.emitted, a.events[..n]);
      assert p.live.world.acked == w.acked + a.events[..n] && p.live.world.seen == sifted.seen;
    }
  }

  lemma PrefixIsUnlike(events: seq<Message>, n: nat)
    requires n <= |events| && AllUnlike(RecordsOf(events))
    ensures AllUnlike(RecordsOf(events[..n]))
  {
    forall i, j | 0 <= i < j < n ensures !Duplicates(events[..n][i].record, events[..n][j].record) {
      assert RecordsOf(events)[i] == events[i].record && RecordsOf(events)[j] == events[j].record;
    }
  }

  /** The seen-set keeps its keys for as long as these pages take. */
  predicate Remembers(steps: seq<FetchStep>)
  {
    forall i :: 0 <= i < |steps| && steps[i].Yields? ==> steps[i].answers.expired == {}
  }

  ghost predicate NothingForgotten(attempts: seq<Attempt>)
  {
    forall i, start: Cursor :: 0 <= i < |attempts| ==> Remembers(attempts[i].fetch(start))
  }

  lemma {:induction false} DrainUnrepeated(cfg: Config, live: Live, floor: Option<int>, stats: Stats,
                                           steps: seq<FetchStep>)
    requires cfg.dedup == MarkAhead && Unrepeated(live.world) && Remembers(steps)
    ensures Unrepeated(Drain(cfg, live, floor, stats, steps).live.world)
    decreases |steps|
  {
    hide OnePage, SiftPage, Tally, Unrepeated;
    if steps != [] && steps[0].Yields? {
      var page, answers := steps[0].page, steps[0].answers;
      OnePageUnrepeated(cfg, live, floor, stats, page, answers);
      DrainUnrepeated(cfg, OnePage(cfg, live, floor, stats, page, answers).live, floor,
                      Tally(stats, page, SiftPage(cfg, live.world, page, answers)), steps[1..]);
    }
  }

  lemma {:induction false} RetryUnrepeated(cfg: Config, live: Live, attempts: seq<Attempt>)
    requires cfg.dedup == MarkAhead && Unrepeated(live.world) && NothingForgotten(attempts)
    ensures Unrepeated(Retry(cfg, live, attempts).live.world)
    decreases |attempts|
  {
    hide Drain, Unrepeated, Remembers;
    if attempts != [] {
      var run := live.run.(attemptStats := NO_STATS);
      DrainUnrepeated(cfg, live.(run := run), WatermarkFloor(run.cursor), NO_STATS,
                      attempts[0].fetch(EffectiveStart(run.cursor, cfg.overlap)));
      RetryUnrepeated(cfg, DrainAttempt(cfg, live, attempts[0]).live, attempts[1..]);
    }
  }

  /**
   Over any history in which the seen-set forgets nothing, whatever is retried, interrupted or yielded
   again, no two messages on the raw topic carry one item or one content.
   */
  lemma {:induction false} NothingIsPublishedTwice(cfg: Config, w: World, scripts: seq<RunScript>)
    requires cfg.dedup == MarkAhead && Unrepeated(w)
    requires forall i :: 0 <= i < |scripts| ==> NothingForgotten(scripts[i].attempts)
    ensures Unrepeated(History(cfg, w, scripts))
  {
    if scripts != [] {
      var n := |scripts| - 1;
      NothingIsPublishedTwice(cfg, w, scripts[..n]);
      hide Retry, Unrepeated, NothingForgotten;
      var before := History(cfg, w, scripts[..n]);
      RetryUnrepeated(cfg, Begin(before), scripts[n].attempts);
      SameTopic(Retry(cfg, Begin(before), scripts[n].attempts).live.world, AfterRun(cfg, before, scripts[n]));
    }
  }

  lemma SameTopic(w: World, w': World)
    requires w'.acked == w.acked && w'.seen == w.seen && Unrepeated(w)
    ensures Unrepeated(w')
  {
  }
}
