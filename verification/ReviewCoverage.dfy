/**
 What the review watermark promises: everything at or behind it has been read, over any history of
 passes, interruptions, resets and changes at the source.
 */
module ReviewCoverage {
  import opened Options
  import opened PullPasses
  import opened ReviewPasses

  // ------------------------------------------------------------------ the walk

  /** The list as GitHub serves it: most recently updated first. */
  predicate NewestFirst(listing: seq<Pull>)
  {
    forall i, j :: 0 <= i < j < |listing| ==> listing[i].updated >= listing[j].updated
  }

  predicate Ascending(queue: seq<Pull>)
  {
    forall i, j :: 0 <= i < j < |queue| ==> queue[i].updated <= queue[j].updated
  }

  function Newer(pulls: seq<Pull>, since: int): (newer: seq<Pull>)
    ensures |newer| <= |pulls|
  {
    if pulls == [] then []
    else if pulls[0].updated > since then [pulls[0]] + Newer(pulls[1..], since)
    else Newer(pulls[1..], since)
  }

  lemma {:induction false} NewerMembers(pulls: seq<Pull>, since: int)
    ensures forall p :: p in Newer(pulls, since) <==> p in pulls && p.updated > since
  {
    if pulls != [] { NewerMembers(pulls[1..], since); }
  }

  lemma {:induction false} NothingNewer(listing: seq<Pull>, since: int)
    requires forall k :: 0 <= k < |listing| ==> listing[k].updated <= since
    ensures Newer(listing, since) == []
  {
    if listing != [] { NothingNewer(listing[1..], since); }
  }

  /** The first `limit` of a list, or all of it. */
  function AtMost(pulls: seq<Pull>, limit: nat): seq<Pull>
  {
    if |pulls| <= limit then pulls else pulls[..limit]
  }

  lemma AtMostOfCons(p: Pull, rest: seq<Pull>, limit: nat)
    requires limit > 0
    ensures AtMost([p] + rest, limit) == [p] + AtMost(rest, limit - 1)
  {
  }

  /** A walk takes the newest of what is newer than the watermark, as many as its pages hold. */
  lemma {:induction false} WalkTakesTheNewest(listing: seq<Pull>, since: int, limit: nat)
    requires NewestFirst(listing)
    ensures Walk(listing, since, limit) == AtMost(Newer(listing, since), limit)
    decreases |listing|
  {
    if listing != [] {
      if listing[0].updated <= since {
        NothingNewer(listing, since);
      } else if limit > 0 {
        assert NewestFirst(listing[1..]);
        hide NewestFirst, AtMost;
        WalkTakesTheNewest(listing[1..], since, limit - 1);
        AtMostOfCons(listing[0], Newer(listing[1..], since), limit);
      }
    }
  }

  lemma {:induction false} ChangedAreKnown(walked: seq<Pull>)
    ensures forall p :: p in Changed(walked) <==> p in walked && Known(p)
  {
    if walked != [] { ChangedAreKnown(walked[1..]); }
  }

  lemma {:induction false} InsertPermutes(p: Pull, queue: seq<Pull>)
    ensures multiset(Insert(p, queue)) == multiset(queue) + multiset{p}
  {
    if queue != [] && p.updated > queue[0].updated {
      InsertPermutes(p, queue[1..]);
      assert queue == [queue[0]] + queue[1..];
    }
  }

  lemma {:induction false} InsertSorts(p: Pull, queue: seq<Pull>)
    requires Ascending(queue)
    ensures Ascending(Insert(p, queue))
    ensures Insert(p, queue)[0] == p || (queue != [] && Insert(p, queue)[0] == queue[0])
  {
    if queue != [] && p.updated > queue[0].updated {
      InsertSorts(p, queue[1..]);
      var rest := Insert(p, queue[1..]);
      assert Insert(p, queue) == [queue[0]] + rest;
      assert queue[0].updated <= rest[0].updated;
      forall k | 0 <= k < |rest| ensures queue[0].updated <= rest[k].updated {
        assert k > 0 ==> rest[0].updated <= rest[k].updated;
      }
    }
  }

  lemma {:induction false} OldestFirstSorts(pulls: seq<Pull>)
    ensures Ascending(OldestFirst(pulls)) && multiset(OldestFirst(pulls)) == multiset(pulls)
    ensures |OldestFirst(pulls)| == |pulls|
    ensures forall p :: p in OldestFirst(pulls) <==> p in pulls
  {
    if pulls != [] {
      OldestFirstSorts(pulls[1..]);
      InsertSorts(pulls[0], OldestFirst(pulls[1..]));
      InsertPermutes(pulls[0], OldestFirst(pulls[1..]));
      assert pulls == [pulls[0]] + pulls[1..];
      hide Insert, Ascending;
    }
    SameMembers(OldestFirst(pulls), pulls);
  }

  lemma SameMembers(xs: seq<Pull>, ys: seq<Pull>)
    requires multiset(xs) == multiset(ys)
    ensures |xs| == |ys| && forall p :: p in xs <==> p in ys
  {
    assert |multiset(xs)| == |xs| && |multiset(ys)| == |ys|;
    forall p ensures p in xs <==> p in ys {
      assert p in xs <==> p in multiset(xs);
      assert p in ys <==> p in multiset(ys);
    }
  }

  // ------------------------------------------------------------------ the reads

  /** The reviews that the payloads of a pull request map to. */
  function ReviewsOf(p: Pull, reviews: Pull -> seq<Option<Review>>): set<Review>
  {
    set k | 0 <= k < |reviews(p)| && reviews(p)[k].Some? :: reviews(p)[k].value
  }

  lemma {:induction false} MappedAreThePayloads(payloads: seq<Option<Review>>)
    ensures Distinct(Mapped(payloads)) == set k | 0 <= k < |payloads| && payloads[k].Some? :: payloads[k].value
  {
    if payloads != [] {
      MappedAreThePayloads(payloads[1..]);
      var rest := payloads[1..];
      assert Distinct(Mapped(payloads))
          == (if payloads[0].Some? then {payloads[0].value} else {}) + Distinct(Mapped(rest));
      forall k | 0 <= k < |rest| ensures rest[k] == payloads[k + 1] {}
    }
  }

  function ReviewsOfAll(pulls: seq<Pull>, reviews: Pull -> seq<Option<Review>>): set<Review>
  {
    if pulls == [] then {} else ReviewsOf(pulls[0], reviews) + ReviewsOfAll(pulls[1..], reviews)
  }

  lemma {:induction false} ReviewsOfMember(pulls: seq<Pull>, p: Pull, reviews: Pull -> seq<Option<Review>>)
    requires p in pulls
    ensures ReviewsOf(p, reviews) <= ReviewsOfAll(pulls, reviews)
  {
    if pulls[0] != p { ReviewsOfMember(pulls[1..], p, reviews); }
  }

  /** Stored and waiting rows together hold what was there and the reviews read; nothing is dropped. */
  lemma {:induction false} ReadsAreKept(sh: Shelf, batch: seq<Pull>, reviews: Pull -> seq<Option<Review>>, fault: Fault)
    ensures var after := ReadAll(sh, batch, reviews, fault);
            && sh.stored <= after.stored
            && (!Interrupts(fault, batch) && !fault.InWalk? ==>
                  Flush(after).stored == Flush(sh).stored + ReviewsOfAll(batch, reviews))
            && after.stored <= Flush(sh).stored + ReviewsOfAll(batch, reviews)
    decreases |batch|
  {
    if batch != [] && fault != InRead(0) {
      var next := Take(sh, reviews(batch[0]));
      TakeKeeps(sh, batch[0], reviews);
      hide Take, Flush, ReviewsOf;
      ReadsAreKept(next, batch[1..], reviews, if fault.InRead? then InRead(fault.index - 1) else fault);
    }
  }

  lemma TakeKeeps(sh: Shelf, p: Pull, reviews: Pull -> seq<Option<Review>>)
    ensures var next := Take(sh, reviews(p));
            && sh.stored <= next.stored <= Flush(next).stored
            && Flush(next).stored == Flush(sh).stored + ReviewsOf(p, reviews)
  {
    var mapped := Mapped(reviews(p));
    MappedAreThePayloads(reviews(p));
    hide Mapped;
    assert Distinct(sh.pending + mapped) == Distinct(sh.pending) + Distinct(mapped);
  }

  // ------------------------------------------------------------------ coverage

  /** Everything changed inside the window and at or behind the watermark has had its reviews stored. */
  ghost predicate Covered(st: Progress, listing: seq<Pull>, window: int, reviews: Pull -> seq<Option<Review>>)
  {
    st.cursor.Some? ==>
      forall p :: p in listing && Known(p) && window < p.updated <= st.cursor.value ==>
        ReviewsOf(p, reviews) <= st.stored
  }

  /** The queue a pass works on. */
  function Queue(listing: seq<Pull>, since: int, limit: nat): seq<Pull>
  {
    OldestFirst(Changed(Walk(listing, since, limit)))
  }

  /** What a walk brings is newer than the watermark, and an untruncated walk brings all of that. */
  lemma WalkMembers(listing: seq<Pull>, since: int, limit: nat)
    requires NewestFirst(listing)
    ensures forall p :: p in Walk(listing, since, limit) ==> p in listing && p.updated > since
    ensures |Walk(listing, since, limit)| < limit ==>
              forall p :: p in listing && p.updated > since ==> p in Walk(listing, since, limit)
  {
    WalkTakesTheNewest(listing, since, limit);
    NewerMembers(listing, since);
    hide Walk, NewestFirst, Newer;
    var newer := Newer(listing, since);
    forall p | p in Walk(listing, since, limit) ensures p in newer {
      if |newer| > limit { assert p in newer[..limit]; }
    }
  }

  /** An untruncated walk brings every pull request that changed since the watermark. */
  lemma CompleteQueue(listing: seq<Pull>, since: int, limit: nat)
    requires NewestFirst(listing)
    ensures Ascending(Queue(listing, since, limit))
    ensures forall p :: p in Queue(listing, since, limit) ==>
              p in listing && p.updated > since && p.number != 0 && p.nodeId != ""
    ensures |Walk(listing, since, limit)| < limit ==>
              forall p :: p in listing && p.updated > since && p.number != 0 && p.nodeId != "" ==>
                p in Queue(listing, since, limit)
  {
    var walked := Walk(listing, since, limit);
    WalkMembers(listing, since, limit);
    ChangedAreKnown(walked);
    OldestFirstSorts(Changed(walked));
    hide Walk, Changed, OldestFirst, NewestFirst, Ascending;
  }

  /** What is older than the last of a chunk is in the chunk. */
  lemma ChunkIsOldest(queue: seq<Pull>, p: Pull)
    requires Ascending(queue) && p in queue && p.updated < Chunk(queue)[|Chunk(queue)| - 1].updated
    ensures p in Chunk(queue)
  {
    var k :| 0 <= k < |queue| && queue[k] == p;
    if k >= |Chunk(queue)| { assert false; }
    assert Chunk(queue)[k] == p;
  }

  /** One pass, however it ends, loses nothing, keeps the coverage and never moves the watermark back. */
  lemma PassKeepsCoverage(st: Progress, listing: seq<Pull>, floor: int, maxPages: nat,
                          reviews: Pull -> seq<Option<Review>>, fault: Fault, window: int)
    requires NewestFirst(listing) && Covered(st, listing, window, reviews)
    requires st.cursor.None? ==> floor <= window
    ensures var st' := AfterPass(st, listing, floor, maxPages, reviews, fault);
            && Covered(st', listing, window, reviews)
            && st.stored <= st'.stored
            && (st.cursor.Some? ==> st'.cursor.Some? && st.cursor.value <= st'.cursor.value)
            && (st'.cursor != st.cursor ==> !fault.InWalk? && !fault.InAdvance?)
            && (st'.cursor.Some? && st'.cursor != st.cursor ==>
                  exists p :: p in listing && st'.cursor.value < p.updated)
  {
    if !fault.InWalk? {
      var since, limit := Since(st, floor), maxPages * PAGE_SIZE;
      var queue := Queue(listing, since, limit);
      var batch := Chunk(queue);
      var sh := Shelf(st.stored, [], 0, 0);
      CompleteQueue(listing, since, limit);
      ReadsAreKept(sh, batch, reviews, fault);
      var st' := AfterPass(st, listing, floor, maxPages, reviews, fault);
      assert Flush(sh).stored == st.stored;
      assert !Interrupts(fault, batch) ==> st'.stored == st.stored + ReviewsOfAll(batch, reviews);
      assert Interrupts(fault, batch) ==>
        st'.stored == ReadAll(sh, batch, reviews, fault).stored && st'.cursor == st.cursor;
      if !Interrupts(fault, batch) && st'.cursor != st.cursor {
        var last := batch[|batch| - 1];
        assert last in queue;
        forall p | p in listing && Known(p) && window < p.updated <= st'.cursor.value
          ensures ReviewsOf(p, reviews) <= st'.stored
        {
          if p.updated > since {
            ChunkIsOldest(queue, p);
            ReviewsOfMember(batch, p, reviews);
          }
        }
      }
      hide ReadAll, Flush, Queue, ReviewsOf, Chunk, NewestFirst, Ascending, ReviewsOfAll;
    }
  }

  // ------------------------------------------------------- the one-flush stream

  lemma {:induction false} NewestIsTheMaximum(pulls: seq<Pull>)
    ensures Newest(pulls).None? <==> pulls == []
    ensures Newest(pulls).Some? ==>
              && (forall k :: 0 <= k < |pulls| ==> pulls[k].updated <= Newest(pulls).value)
              && exists k :: 0 <= k < |pulls| && pulls[k].updated == Newest(pulls).value
  {
    if pulls != [] {
      var n := |pulls| - 1;
      NewestIsTheMaximum(pulls[..n]);
      if Newest(pulls[..n]).Some? && Newest(pulls[..n]).value > pulls[n].updated {
        var k :| 0 <= k < n && pulls[..n][k].updated == Newest(pulls[..n]).value;
        assert pulls[k].updated == Newest(pulls).value;
      } else {
        assert pulls[n].updated == Newest(pulls).value;
      }
      assert forall k :: 0 <= k < n ==> pulls[k] == pulls[..n][k];
    }
  }

  lemma {:induction false} MappablesAreMapped(walked: seq<Pull>)
    ensures forall p :: p in Mappables(walked) <==> p in walked && Mappable(p)
  {
    if walked != [] {
      var n := |walked| - 1;
      MappablesAreMapped(walked[..n]);
      assert walked == walked[..n] + [walked[n]];
    }
  }

  /** Every mapped pull request of a walk is in the flush. */
  lemma FlushHoldsRows(pulls: seq<Pull>, p: Pull)
    requires p in pulls
    ensures p.nodeId in Distinct(RowsOf(pulls))
  {
    var k :| 0 <= k < |pulls| && pulls[k] == p;
    assert RowsOf(pulls)[k] == p.nodeId;
  }

  /** Every pull request that maps, changed inside the window and is at or behind the watermark, is stored. */
  ghost predicate RowsCovered(st: Progress, listing: seq<Pull>, window: int)
  {
    st.cursor.Some? ==>
      forall p :: p in listing && Mappable(p) && window < p.updated <= st.cursor.value ==> p.nodeId in st.stored
  }

  /**
   The pull-request stream keeps the same promise in one pass: with a complete walk it stores every
   outstanding row, a walk that is cut short or raises leaves the watermark, and rows are never lost.
   */
  lemma PullPassKeepsCoverage(st: Progress, listing: seq<Pull>, floor: int, maxPages: nat, fault: PullFault,
                              window: int)
    requires NewestFirst(listing) && RowsCovered(st, listing, window)
    requires st.cursor.None? ==> floor <= window
    ensures var st' := AfterPullPass(st, listing, floor, maxPages, fault);
            var complete := !fault.BeforeFlush? && |Newer(listing, Since(st, floor))| < maxPages * PAGE_SIZE;
            && RowsCovered(st', listing, window)
            && st.stored <= st'.stored
            && (st'.cursor != st.cursor ==> complete && fault == Unhurt)
            && (st.cursor.Some? ==> st'.cursor.Some? && st.cursor.value <= st'.cursor.value)
            && (complete ==>
                  forall p :: p in listing && Mappable(p) && p.updated > Since(st, floor) ==> p.nodeId in st'.stored)
  {
    hide Walk, Mappables, Newest, NewestFirst, RowsOf, Distinct, Newer;
    if !fault.BeforeFlush? {
      var since, limit := Since(st, floor), maxPages * PAGE_SIZE;
      var walked := Walk(listing, since, limit);
      var mapped := Mappables(walked);
      var st' := AfterPullPass(st, listing, floor, maxPages, fault);
      WalkTakesTheNewest(listing, since, limit);
      WalkMembers(listing, since, limit);
      MappablesAreMapped(walked);
      NewestIsTheMaximum(mapped);
      assert |walked| < limit <==> |Newer(listing, since)| < limit;
      forall p | p in mapped
        ensures p.nodeId in st'.stored && p.updated > since && p.updated <= Newest(mapped).value
      {
        FlushHoldsRows(mapped, p);
      }
      if mapped != [] {
        var k :| 0 <= k < |mapped| && mapped[k].updated == Newest(mapped).value;
        assert mapped[k] in mapped;
      }
    }
  }

  // -------------------------------------------------- the watermark and the window

  /** A pull request that can be read and stored. */
  function Sample(updated: int): Pull { Pull(1, "x", Some(updated), updated) }

  /** No list and no ending of a pass tells the two windows apart. */
  ghost predicate WindowsAgree(st: Progress, wide: int, narrow: int)
  {
    && (forall listing, maxPages, fault ::
          AfterPullPass(st, listing, wide, maxPages, fault) == AfterPullPass(st, listing, narrow, maxPages, fault))
    && (forall listing, maxPages, reviews, fault ::
          AfterPass(st, listing, wide, maxPages, reviews, fault)
          == AfterPass(st, listing, narrow, maxPages, reviews, fault))
  }

  /** The window decides what a pass reads exactly when there is no watermark, as after a reset. */
  lemma WindowDecidesIff(st: Progress, wide: int, narrow: int)
    requires wide < narrow
    ensures WindowsAgree(st, wide, narrow) <==> st.cursor.Some?
  {
    if st.cursor.None? {
      var p := Sample(narrow);
      SampleIsRead(st, p, wide, narrow);
      hide AfterPass, AfterPullPass;
      assert AfterPullPass(st, [p], wide, 1, Unhurt) != AfterPullPass(st, [p], narrow, 1, Unhurt);
    } else {
      hide Walk, Changed, OldestFirst, Mappables, Newest, ReadAll, RowsOf;
    }
  }

  lemma WalkOfOne(p: Pull, since: int)
    requires Known(p) && Mappable(p)
    ensures var walked := Walk([p], since, PAGE_SIZE);
            if p.updated > since then
              walked == [p] && Newest(Mappables(walked)) == Some(p.updated) && OldestFirst(Changed(walked)) == [p]
            else walked == [] && Mappables(walked) == [] && Changed(walked) == []
  {
    assert [p][1..] == [] && [p][..0] == [];
    if p.updated > since {
      assert Walk([p], since, PAGE_SIZE) == [p] + Walk([], since, PAGE_SIZE - 1);
      assert Mappables([p]) == [p] && Changed([p]) == [p];
    }
  }

  lemma SampleIsRead(st: Progress, p: Pull, wide: int, narrow: int)
    requires st.cursor.None? && wide < narrow && p == Sample(narrow)
    ensures AfterPullPass(st, [p], wide, 1, Unhurt).cursor == Some(narrow - WATERMARK_OVERLAP)
    ensures AfterPullPass(st, [p], narrow, 1, Unhurt).cursor == None
    ensures forall reviews: Pull -> seq<Option<Review>> ::
              && AfterPass(st, [p], wide, 1, reviews, Clean).cursor == Some(narrow - WATERMARK_OVERLAP)
              && AfterPass(st, [p], narrow, 1, reviews, Clean).cursor == None
  {
    hide Walk, Changed, OldestFirst, Mappables, Newest, ReadAll, RowsOf;
    WalkOfOne(p, wide);
    WalkOfOne(p, narrow);
    assert OldestFirst([]) == [] && Newest([]) == None by { NothingToSort(); }
  }

  lemma NothingToSort()
    ensures OldestFirst([]) == [] && Newest([]) == None
  {
  }

  // ------------------------------------------------------------------ histories

  /**
   What can happen to a stream: a pass that ends somehow, a reset, or a change at the source, which
   touches only pull requests stamped at or after the clock.
   */
  datatype Event =
    | Pass(floor: int, maxPages: nat, fault: Fault)
    | Reset
    | Change(listing: seq<Pull>, reviews: Pull -> seq<Option<Review>>, clock: int)

  /** The source as it stands, its clock in seconds, and what the stream has made of it. */
  datatype World = World(listing: seq<Pull>, reviews: Pull -> seq<Option<Review>>, clock: int, progress: Progress)

  function Happen(w: World, e: Event): World
  {
    match e
    case Pass(floor, maxPages, fault) =>
      w.(progress := AfterPass(w.progress, w.listing, floor, maxPages, w.reviews, fault))
    case Reset => w.(progress := w.progress.(cursor := None))
    case Change(listing, reviews, clock) => w.(listing := listing, reviews := reviews, clock := clock)
  }

  /** Nothing listed is later than the clock, and the watermark is behind it. */
  predicate Sane(w: World)
  {
    && NewestFirst(w.listing)
    && (forall p :: p in w.listing ==> p.updated <= w.clock)
    && (w.progress.cursor.Some? ==> w.progress.cursor.value < w.clock)
  }

  /**
   What GitHub and the caller keep to: the past does not change, its last second excepted, and a pass that
   has no position yet reads the whole window. Later passes may come with any floor.
   */
  predicate Fair(w: World, e: Event, window: int)
  {
    match e
    case Pass(floor, _, _) => w.progress.cursor.None? ==> floor <= window
    case Reset => true
    case Change(listing, reviews, clock) =>
      && NewestFirst(listing) && w.clock <= clock
      && forall p :: p in listing ==>
           p.updated <= clock && (w.clock <= p.updated || (p in w.listing && reviews(p) == w.reviews(p)))
  }

  function Later(w: World, events: seq<Event>): World
    decreases |events|
  {
    if events == [] then w else Later(Happen(w, events[0]), events[1..])
  }

  ghost predicate FairHistory(w: World, events: seq<Event>, window: int)
    decreases |events|
  {
    events == [] || (Fair(w, events[0], window) && FairHistory(Happen(w, events[0]), events[1..], window))
  }

  lemma EventKeepsCoverage(w: World, e: Event, window: int)
    requires Sane(w) && Covered(w.progress, w.listing, window, w.reviews) && Fair(w, e, window)
    ensures var w' := Happen(w, e); Sane(w') && Covered(w'.progress, w'.listing, window, w'.reviews)
    ensures w.progress.stored <= Happen(w, e).progress.stored
  {
    match e
    case Pass(floor, maxPages, fault) =>
      PassKeepsCoverage(w.progress, w.listing, floor, maxPages, w.reviews, fault, window);
      hide AfterPass, ReviewsOf;
    case Reset =>
    case Change(listing, reviews, clock) =>
      hide Distinct, Mapped;
  }

  /** At every moment of every history, each pull request behind the watermark has been read. */
  lemma {:induction false} NothingBehindTheWatermarkIsUnread(w: World, events: seq<Event>, window: int)
    requires Sane(w) && Covered(w.progress, w.listing, window, w.reviews) && FairHistory(w, events, window)
    ensures var w' := Later(w, events);
            && Sane(w') && Covered(w'.progress, w'.listing, window, w'.reviews)
            && w.progress.stored <= w'.progress.stored
    decreases |events|
  {
    if events != [] {
      EventKeepsCoverage(w, events[0], window);
      hide Happen, Sane, Covered, Fair;
      NothingBehindTheWatermarkIsUnread(Happen(w, events[0]), events[1..], window);
    }
  }
}
