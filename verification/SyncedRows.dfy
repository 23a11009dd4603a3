/**
 The artifact table under the sync streams: the batches a pass flushes, and what any history of passes,
 interruptions and resets leaves in the table they are upserted into.
 */
module SyncedRows {
  import opened Options
  import opened PullPasses
  import opened ReviewPasses
  import opened Upserts
  import ReviewCoverage
  import ReviewConvergence

  // ------------------------------------------------------------ what is flushed

  /** The batches a fan-out hands to the store; rows that were waiting when it was interrupted are not among them. */
  function Flushes(pending: seq<Review>, batch: seq<Pull>, reviews: Pull -> seq<Option<Review>>, fault: Fault)
    : seq<seq<Review>>
    decreases |batch|
  {
    if batch == [] then [pending]
    else if fault == InRead(0) then []
    else
      var taken := pending + Mapped(reviews(batch[0]));
      var later := if fault.InRead? then InRead(fault.index - 1) else fault;
      if |taken| >= BATCH_SIZE then [taken] + Flushes([], batch[1..], reviews, later)
      else Flushes(taken, batch[1..], reviews, later)
  }

  /** The batches of a whole review pass. */
  function ReviewWrites(st: Progress, listing: seq<Pull>, floor: int, maxPages: nat,
                        reviews: Pull -> seq<Option<Review>>, fault: Fault): seq<seq<Review>>
  {
    if fault.InWalk? then []
    else Flushes([], Chunk(OldestFirst(Changed(Walk(listing, Since(st, floor), maxPages * PAGE_SIZE)))), reviews, fault)
  }

  /** The one batch of a pull-request pass. */
  function PullWrites(st: Progress, listing: seq<Pull>, floor: int, maxPages: nat, fault: PullFault): seq<seq<Review>>
  {
    if fault.BeforeFlush? then [] else [RowsOf(Mappables(Walk(listing, Since(st, floor), maxPages * PAGE_SIZE)))]
  }

  function AllOf(writes: seq<seq<Review>>): set<Review>
  {
    if writes == [] then {} else Distinct(writes[0]) + AllOf(writes[1..])
  }

  lemma {:induction false} AllOfAppend(some: seq<seq<Review>>, more: seq<seq<Review>>)
    ensures AllOf(some + more) == AllOf(some) + AllOf(more)
  {
    if some == [] {
      assert some + more == more;
    } else {
      assert (some + more)[1..] == some[1..] + more;
      AllOfAppend(some[1..], more);
    }
  }

  /** The fan-out's shelf grows by exactly what is flushed, interrupted or not. */
  lemma {:induction false} FlushesAreStored(sh: Shelf, batch: seq<Pull>, reviews: Pull -> seq<Option<Review>>,
                                            fault: Fault)
    requires !fault.InWalk?
    ensures var after := ReadAll(sh, batch, reviews, fault);
            (if Interrupts(fault, batch) then after.stored else Flush(after).stored)
            == sh.stored + AllOf(Flushes(sh.pending, batch, reviews, fault))
    decreases |batch|
  {
    hide Mapped, Distinct;
    if batch == [] {
      assert AllOf([sh.pending]) == Distinct(sh.pending) by { assert [sh.pending][1..] == []; }
    } else if fault != InRead(0) {
      var next, later := Take(sh, reviews(batch[0])), if fault.InRead? then InRead(fault.index - 1) else fault;
      FlushesAreStored(next, batch[1..], reviews, later);
      var taken := sh.pending + Mapped(reviews(batch[0]));
      var rest := Flushes([], batch[1..], reviews, later);
      assert ([taken] + rest)[1..] == rest;
    }
  }

  function Payloads(batch: seq<Pull>, reviews: Pull -> seq<Option<Review>>): nat
  {
    if batch == [] then 0 else |reviews(batch[0])| + Payloads(batch[1..], reviews)
  }

  /** How many rows the batches write, each statement for itself. */
  function RowsIn(writes: seq<seq<Review>>): nat
  {
    if writes == [] then 0 else |Distinct(writes[0])| + RowsIn(writes[1..])
  }

  /** A pass that reads its batch to the end reports every payload it read and every row of every flush. */
  lemma {:induction false} PassReportsWhatItReads(sh: Shelf, batch: seq<Pull>, reviews: Pull -> seq<Option<Review>>,
                                                  fault: Fault)
    requires !Interrupts(fault, batch)
    ensures var after := Flush(ReadAll(sh, batch, reviews, fault));
            && after.fetched == sh.fetched + Payloads(batch, reviews)
            && after.written == sh.written + RowsIn(Flushes(sh.pending, batch, reviews, fault))
    decreases |batch|
  {
    hide Mapped, Distinct;
    if batch == [] {
      assert [sh.pending][1..] == [];
    } else {
      var next, later := Take(sh, reviews(batch[0])), if fault.InRead? then InRead(fault.index - 1) else fault;
      PassReportsWhatItReads(next, batch[1..], reviews, later);
      var taken := sh.pending + Mapped(reviews(batch[0]));
      var rest := Flushes([], batch[1..], reviews, later);
      assert ([taken] + rest)[1..] == rest;
    }
  }

  lemma ReviewWritesAreStored(st: Progress, listing: seq<Pull>, floor: int, maxPages: nat,
                              reviews: Pull -> seq<Option<Review>>, fault: Fault)
    ensures AfterPass(st, listing, floor, maxPages, reviews, fault).stored
         == st.stored + AllOf(ReviewWrites(st, listing, floor, maxPages, reviews, fault))
  {
    hide Walk, Changed, OldestFirst, ReadAll, Flush, Flushes;
    if !fault.InWalk? {
      var batch := Chunk(OldestFirst(Changed(Walk(listing, Since(st, floor), maxPages * PAGE_SIZE))));
      FlushesAreStored(Shelf(st.stored, [], 0, 0), batch, reviews, fault);
    }
  }

  lemma PullWritesAreStored(st: Progress, listing: seq<Pull>, floor: int, maxPages: nat, fault: PullFault)
    ensures AfterPullPass(st, listing, floor, maxPages, fault).stored
         == st.stored + AllOf(PullWrites(st, listing, floor, maxPages, fault))
  {
    hide Walk, Mappables, RowsOf, Distinct;
    var rows := RowsOf(Mappables(Walk(listing, Since(st, floor), maxPages * PAGE_SIZE)));
    assert [rows][1..] == [];
  }

  // ------------------------------------------------------------------ histories

  /** The two streams of a source; both write into one table. */
  datatype Streams = Streams(pulls: Progress, reviews: Progress) {
    function Stored(): set<Review> { pulls.stored + reviews.stored }
  }

  /** A pass over the source as it stands then, ending somehow, or a reset. */
  datatype SyncEvent =
    | SyncPulls(listing: seq<Pull>, floor: int, maxPages: nat, pullFault: PullFault)
    | SyncReviews(listing: seq<Pull>, floor: int, maxPages: nat, reviews: Pull -> seq<Option<Review>>, fault: Fault)
    | ResetPulls
    | ResetReviews

  function SyncOne(st: Streams, e: SyncEvent): Streams
  {
    match e
    case SyncPulls(listing, floor, maxPages, fault) =>
      st.(pulls := AfterPullPass(st.pulls, listing, floor, maxPages, fault))
    case SyncReviews(listing, floor, maxPages, reviews, fault) =>
      st.(reviews := AfterPass(st.reviews, listing, floor, maxPages, reviews, fault))
    case ResetPulls => st.(pulls := st.pulls.(cursor := None))
    case ResetReviews => st.(reviews := st.reviews.(cursor := None))
  }

  function WritesOne(st: Streams, e: SyncEvent): seq<seq<Review>>
  {
    match e
    case SyncPulls(listing, floor, maxPages, fault) => PullWrites(st.pulls, listing, floor, maxPages, fault)
    case SyncReviews(listing, floor, maxPages, reviews, fault) =>
      ReviewWrites(st.reviews, listing, floor, maxPages, reviews, fault)
    case _ => []
  }

  function SyncAll(st: Streams, events: seq<SyncEvent>): Streams
    decreases |events|
  {
    if events == [] then st else SyncAll(SyncOne(st, events[0]), events[1..])
  }

  /** Every batch a history hands to the store, in order. */
  function WritesAll(st: Streams, events: seq<SyncEvent>): seq<seq<Review>>
    decreases |events|
  {
    if events == [] then [] else WritesOne(st, events[0]) + WritesAll(SyncOne(st, events[0]), events[1..])
  }

  lemma {:induction false} HistoryWritesWhatItStores(st: Streams, events: seq<SyncEvent>)
    ensures SyncAll(st, events).Stored() == st.Stored() + AllOf(WritesAll(st, events))
    decreases |events|
  {
    hide AfterPass, AfterPullPass, PullWrites, ReviewWrites;
    if events != [] {
      match events[0] {
        case SyncPulls(listing, floor, maxPages, fault) =>
          PullWritesAreStored(st.pulls, listing, floor, maxPages, fault);
        case SyncReviews(listing, floor, maxPages, reviews, fault) =>
          ReviewWritesAreStored(st.reviews, listing, floor, maxPages, reviews, fault);
        case _ =>
      }
      HistoryWritesWhatItStores(SyncOne(st, events[0]), events[1..]);
      AllOfAppend(WritesOne(st, events[0]), WritesAll(SyncOne(st, events[0]), events[1..]));
    }
  }

  // ------------------------------------------------------------------ the table

  /** The payload behind each identity, named by that identity. */
  ghost predicate Keyed<F(!new), M(!new)>(payload: Review -> Item<F, M>)
  {
    forall id: Review :: payload(id).id == id
  }

  function Rows<F, M>(payload: Review -> Item<F, M>, ids: seq<Review>): seq<Item<F, M>>
  {
    seq(|ids|, k requires 0 <= k < |ids| => payload(ids[k]))
  }

  function Batches<F, M>(payload: Review -> Item<F, M>, writes: seq<seq<Review>>): seq<seq<Item<F, M>>>
  {
    seq(|writes|, k requires 0 <= k < |writes| => Rows(payload, writes[k]))
  }

  /** The table holds the stored rows, and what may change about them as the source has it. */
  ghost predicate InSync<F, M>(t: Table<F, M>, payload: Review -> Item<F, M>, stored: set<Review>)
  {
    t.Keys == stored && forall id :: id in t ==> t[id].mutable == payload(id).mutable
  }

  function SourceOf<F, M>(payload: Review -> Item<F, M>, ids: set<Review>): map<string, Item<F, M>>
  {
    map id | id in ids :: payload(id)
  }

  lemma {:induction false} AllOfMembers(writes: seq<seq<Review>>)
    ensures forall id :: id in AllOf(writes) <==> exists k :: 0 <= k < |writes| && id in writes[k]
  {
    if writes != [] {
      AllOfMembers(writes[1..]);
      forall id ensures id in AllOf(writes) <==> exists k :: 0 <= k < |writes| && id in writes[k] {
        if k :| 0 <= k < |writes| && id in writes[k] {
          if k > 0 { assert writes[1..][k - 1] == writes[k]; }
        }
        if id in AllOf(writes[1..]) {
          var k :| 0 <= k < |writes[1..]| && id in writes[1..][k];
          assert writes[k + 1] == writes[1..][k];
        }
      }
    }
  }

  /** The batches bring exactly the identities flushed, each with its payload. */
  lemma BatchesAreDrawn<F(!new), M(!new)>(payload: Review -> Item<F, M>, writes: seq<seq<Review>>, ids: set<Review>)
    requires Keyed(payload) && AllOf(writes) <= ids
    ensures Mentioned(Batches(payload, writes)) == AllOf(writes)
    ensures DrawnFrom(SourceOf(payload, ids), Batches(payload, writes))
  {
    AllOfMembers(writes);
    var batches := Batches(payload, writes);
    forall k, id | 0 <= k < |writes| ensures id in Ids(batches[k]) <==> id in writes[k] {
      if id in Ids(batches[k]) {
        var j :| 0 <= j < |batches[k]| && batches[k][j].id == id;
        assert batches[k][j] == payload(writes[k][j]);
      }
      if id in writes[k] {
        var j :| 0 <= j < |writes[k]| && writes[k][j] == id;
        assert batches[k][j] == payload(id);
      }
    }
    forall k: int, item: Item<F, M> | 0 <= k < |batches| && item in batches[k]
      ensures item.id in ids && payload(item.id) == item
    {
      var j :| 0 <= j < |batches[k]| && batches[k][j] == item;
      assert item == payload(writes[k][j]) && writes[k][j] in writes[k];
    }
  }

  /** Any history keeps the table in sync with what its streams have stored. */
  lemma HistoryKeepsTableInSync<F(!new), M(!new)>(t: Table<F, M>, payload: Review -> Item<F, M>, st: Streams,
                                                  events: seq<SyncEvent>)
    requires Keyed(payload) && InSync(t, payload, st.Stored())
    ensures InSync(After(t, Batches(payload, WritesAll(st, events))), payload, SyncAll(st, events).Stored())
  {
    var writes := WritesAll(st, events);
    HistoryWritesWhatItStores(st, events);
    BatchesAreDrawn(payload, writes, AllOf(writes));
    RowsFromSource(t, SourceOf(payload, AllOf(writes)), Batches(payload, writes));
    hide After, Mentioned, DrawnFrom, WritesAll, SyncAll, Batches, AllOf;
  }

  /**
   The table is a function of what has been stored: two histories of passes, interrupted, reset and
   repeated in whatever way, leave the same table exactly if they have stored the same rows.
   */
  lemma TablesAgreeIff<F(!new), M(!new)>(t: Table<F, M>, payload: Review -> Item<F, M>, st: Streams,
                                         one: seq<SyncEvent>, other: seq<SyncEvent>)
    requires Keyed(payload) && InSync(t, payload, st.Stored())
    ensures After(t, Batches(payload, WritesAll(st, one))) == After(t, Batches(payload, WritesAll(st, other)))
            <==> SyncAll(st, one).Stored() == SyncAll(st, other).Stored()
  {
    HistoryKeepsTableInSync(t, payload, st, one);
    HistoryKeepsTableInSync(t, payload, st, other);
    var w1, w2 := WritesAll(st, one), WritesAll(st, other);
    HistoryWritesWhatItStores(st, one);
    HistoryWritesWhatItStores(st, other);
    var ids := AllOf(w1) + AllOf(w2);
    BatchesAreDrawn(payload, w1, ids);
    BatchesAreDrawn(payload, w2, ids);
    ReplayIsInvisible(t, SourceOf(payload, ids), Batches(payload, w1), Batches(payload, w2));
    hide After, Mentioned, DrawnFrom, WritesAll, SyncAll, Batches, AllOf;
  }

  // ------------------------------------------------ interrupt, reset and re-read

  function KnownSince(listing: seq<Pull>, floor: int): set<Pull>
  {
    set p | p in listing && Known(p) && p.updated > floor
  }

  /** Everything there is to read of the listing after `floor`. */
  function Outstanding(listing: seq<Pull>, floor: int, reviews: Pull -> seq<Option<Review>>): set<Review>
  {
    ReviewConvergence.ReviewsOfSet(KnownSince(listing, floor), reviews)
  }

  /** A pass over this listing, however it ends, or a reset: nothing further back than `floor` is asked for. */
  ghost predicate StandsStill(e: SyncEvent, listing: seq<Pull>, floor: int, reviews: Pull -> seq<Option<Review>>)
  {
    e.ResetReviews? || (e.SyncReviews? && e.listing == listing && e.reviews == reviews && floor <= e.floor)
  }

  /** The watermark is not behind `floor`. */
  predicate NotBefore(st: Progress, floor: int) { st.cursor.Some? ==> floor <= st.cursor.value }

  lemma ReadOfMembers(batch: seq<Pull>, pulls: set<Pull>, reviews: Pull -> seq<Option<Review>>)
    requires forall p :: p in batch ==> p in pulls
    ensures ReviewCoverage.ReviewsOfAll(batch, reviews) <= ReviewConvergence.ReviewsOfSet(pulls, reviews)
  {
    ReviewConvergence.ReviewsOfMembers(batch, reviews);
    hide ReviewCoverage.ReviewsOf, ReviewCoverage.ReviewsOfAll;
    assert ReviewConvergence.Members(batch) <= pulls;
  }

  lemma PassReadsWhatIsOutstanding(st: Progress, listing: seq<Pull>, floor: int, from: int, maxPages: nat,
                                   reviews: Pull -> seq<Option<Review>>, fault: Fault)
    requires ReviewCoverage.NewestFirst(listing) && floor <= from && NotBefore(st, floor)
    ensures var st' := AfterPass(st, listing, from, maxPages, reviews, fault);
            st'.stored <= st.stored + Outstanding(listing, floor, reviews) && NotBefore(st', floor)
  {
    if !fault.InWalk? {
      var since, limit := Since(st, from), maxPages * PAGE_SIZE;
      var queue := ReviewCoverage.Queue(listing, since, limit);
      var batch, sh := Chunk(queue), Shelf(st.stored, [], 0, 0);
      ReviewCoverage.CompleteQueue(listing, since, limit);
      ReviewCoverage.ReadsAreKept(sh, batch, reviews, fault);
      assert Flush(sh).stored == st.stored;
      assert forall p :: p in batch ==> p in queue;
      ReadOfMembers(batch, KnownSince(listing, floor), reviews);
      var st' := AfterPass(st, listing, from, maxPages, reviews, fault);
      assert Interrupts(fault, batch) ==>
          st'.stored == ReadAll(sh, batch, reviews, fault).stored && st'.cursor == st.cursor;
      assert !Interrupts(fault, batch) ==> st'.stored == Flush(ReadAll(sh, batch, reviews, fault)).stored;
      hide ReadAll, Flush, ReviewCoverage.Queue, ReviewCoverage.NewestFirst, ReviewCoverage.ReviewsOfAll;
    }
  }

  /** Over a listing that stands still no history stores more than is outstanding. */
  lemma {:induction false} HistoryReadsWhatIsOutstanding(st: Streams, listing: seq<Pull>, floor: int,
                                                         reviews: Pull -> seq<Option<Review>>, events: seq<SyncEvent>)
    requires ReviewCoverage.NewestFirst(listing) && NotBefore(st.reviews, floor)
    requires forall k :: 0 <= k < |events| ==> StandsStill(events[k], listing, floor, reviews)
    ensures var st' := SyncAll(st, events);
            && st.Stored() <= st'.Stored() <= st.Stored() + Outstanding(listing, floor, reviews)
            && st'.pulls == st.pulls && NotBefore(st'.reviews, floor)
            && st.reviews.stored <= st'.reviews.stored <= st.reviews.stored + Outstanding(listing, floor, reviews)
    decreases |events|
  {
    hide AfterPass, ReviewCoverage.NewestFirst, Outstanding;
    if events != [] {
      var e, next := events[0], SyncOne(st, events[0]);
      assert StandsStill(e, listing, floor, reviews);
      if e.SyncReviews? {
        PassReadsWhatIsOutstanding(st.reviews, listing, floor, e.floor, e.maxPages, reviews, e.fault);
        ReviewWritesAreStored(st.reviews, listing, e.floor, e.maxPages, reviews, e.fault);
      }
      HistoryReadsWhatIsOutstanding(next, listing, floor, reviews, events[1..]);
    }
  }

  /** `n` uninterrupted passes. */
  function CleanPasses(listing: seq<Pull>, floor: int, maxPages: nat, reviews: Pull -> seq<Option<Review>>, n: nat)
    : seq<SyncEvent>
  {
    seq(n, _ => SyncReviews(listing, floor, maxPages, reviews, Clean))
  }

  lemma {:induction false} CleanPassesRepeat(st: Streams, listing: seq<Pull>, floor: int, maxPages: nat,
                                             reviews: Pull -> seq<Option<Review>>, n: nat)
    ensures SyncAll(st, CleanPasses(listing, floor, maxPages, reviews, n))
         == st.(reviews := ReviewConvergence.AfterPasses(st.reviews, listing, floor, maxPages, reviews, n))
    decreases n
  {
    hide AfterPass;
    if n > 0 {
      var passes := CleanPasses(listing, floor, maxPages, reviews, n);
      assert passes[1..] == CleanPasses(listing, floor, maxPages, reviews, n - 1);
      CleanPassesRepeat(SyncOne(st, passes[0]), listing, floor, maxPages, reviews, n - 1);
    }
  }

  /** From a forgotten position, enough passes with complete walks and no crowded second store all there is. */
  lemma CleanPassesStoreAll(st: Progress, listing: seq<Pull>, floor: int, maxPages: nat,
                            reviews: Pull -> seq<Option<Review>>, n: nat)
    requires ReviewCoverage.NewestFirst(listing) && st.cursor.None?
    requires |ReviewCoverage.Newer(listing, floor)| < maxPages * PAGE_SIZE && n >= |listing|
    requires ReviewConvergence.Roomy(ReviewCoverage.Queue(listing, floor, maxPages * PAGE_SIZE))
    ensures Outstanding(listing, floor, reviews)
         <= ReviewConvergence.AfterPasses(st, listing, floor, maxPages, reviews, n).stored
  {
    hide ReviewCoverage.ReviewsOf, ReviewCoverage.NewestFirst, ReviewConvergence.Roomy, ReviewCoverage.Newer,
         ReviewConvergence.AfterPasses;
    var stored := ReviewConvergence.AfterPasses(st, listing, floor, maxPages, reviews, n).stored;
    forall r | r in Outstanding(listing, floor, reviews) ensures r in stored {
      var p :| p in listing && Known(p) && p.updated > floor && r in ReviewCoverage.ReviewsOf(p, reviews);
      ReviewConvergence.RoomyStreamsFinish(st, listing, floor, maxPages, reviews, n, p);
    }
  }

  lemma {:induction false} SyncAllAppend(st: Streams, some: seq<SyncEvent>, more: seq<SyncEvent>)
    ensures SyncAll(st, some + more) == SyncAll(SyncAll(st, some), more)
    decreases |some|
  {
    hide SyncOne;
    if some == [] {
      assert some + more == more;
    } else {
      assert (some + more)[1..] == some[1..] + more;
      SyncAllAppend(SyncOne(st, some[0]), some[1..], more);
    }
  }

  /**
   Interrupting, resetting and reading again is invisible: whatever passes came before a reset, once enough
   clean ones have followed it the table is the one those would have left by themselves.
   */
  lemma ResyncIsInvisible<F(!new), M(!new)>(t: Table<F, M>, payload: Review -> Item<F, M>, st: Streams,
                                            listing: seq<Pull>, floor: int, maxPages: nat,
                                            reviews: Pull -> seq<Option<Review>>, before: seq<SyncEvent>, n: nat)
    requires Keyed(payload) && InSync(t, payload, st.Stored()) && st.reviews.cursor.None?
    requires ReviewCoverage.NewestFirst(listing)
    requires |ReviewCoverage.Newer(listing, floor)| < maxPages * PAGE_SIZE && n >= |listing|
    requires ReviewConvergence.Roomy(ReviewCoverage.Queue(listing, floor, maxPages * PAGE_SIZE))
    requires forall k :: 0 <= k < |before| ==> StandsStill(before[k], listing, floor, reviews)
    ensures var clean := CleanPasses(listing, floor, maxPages, reviews, n);
            After(t, Batches(payload, WritesAll(st, before + [ResetReviews] + clean)))
            == After(t, Batches(payload, WritesAll(st, clean)))
  {
    hide WritesAll, After, Batches, InSync, StandsStill, ReviewConvergence.Roomy, ReviewCoverage.Newer,
         ReviewCoverage.NewestFirst, Outstanding, ReviewCoverage.Queue, CleanPasses;
    var clean := CleanPasses(listing, floor, maxPages, reviews, n);
    var st1 := SyncAll(st, before);
    var st2 := SyncOne(st1, ResetReviews);
    assert SyncAll(st1, [ResetReviews]) == st2 by { assert [ResetReviews][1..] == []; }
    SyncAllAppend(st, before, [ResetReviews]);
    SyncAllAppend(st, before + [ResetReviews], clean);
    HistoryReadsWhatIsOutstanding(st, listing, floor, reviews, before);
    hide SyncAll;
    StoredAfterCleanPasses(st, listing, floor, maxPages, reviews, n);
    StoredAfterCleanPasses(st2, listing, floor, maxPages, reviews, n);
    TablesAgreeIff(t, payload, st, before + [ResetReviews] + clean, clean);
  }

  lemma StoredAfterCleanPasses(st: Streams, listing: seq<Pull>, floor: int, maxPages: nat,
                               reviews: Pull -> seq<Option<Review>>, n: nat)
    requires ReviewCoverage.NewestFirst(listing) && st.reviews.cursor.None?
    requires |ReviewCoverage.Newer(listing, floor)| < maxPages * PAGE_SIZE && n >= |listing|
    requires ReviewConvergence.Roomy(ReviewCoverage.Queue(listing, floor, maxPages * PAGE_SIZE))
    ensures SyncAll(st, CleanPasses(listing, floor, maxPages, reviews, n)).Stored()
         == st.Stored() + Outstanding(listing, floor, reviews)
  {
    var clean := CleanPasses(listing, floor, maxPages, reviews, n);
    HistoryReadsWhatIsOutstanding(st, listing, floor, reviews, clean);
    CleanPassesRepeat(st, listing, floor, maxPages, reviews, n);
    CleanPassesStoreAll(st.reviews, listing, floor, maxPages, reviews, n);
    hide SyncAll, Outstanding, ReviewConvergence.AfterPasses;
  }
}
