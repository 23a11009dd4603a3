/**
 Whether repeated review passes reach the end of the queue: exactly when no single second holds a
 whole chunk with more still to come after it.
 */
module ReviewConvergence {
  import opened Options
  import opened PullPasses
  import opened ReviewPasses
  import opened ReviewCoverage

  // ------------------------------------------------------- queues and suffixes

  /** How much of an oldest-first queue is no newer than some moment. */
  function Cut(queue: seq<Pull>, since: int): (k: nat)
    ensures k <= |queue| && (k < |queue| ==> queue[k].updated > since)
    ensures forall i :: 0 <= i < k ==> queue[i].updated <= since
  {
    if queue == [] || queue[0].updated > since then 0 else 1 + Cut(queue[1..], since)
  }

  lemma {:induction false} NewerAfterCut(queue: seq<Pull>, k: nat, since: int)
    requires k <= |queue|
    requires forall i :: 0 <= i < k ==> queue[i].updated <= since
    requires forall i :: k <= i < |queue| ==> queue[i].updated > since
    ensures Newer(queue, since) == queue[k..]
    decreases k
  {
    if k == 0 {
      AllNewer(queue, since);
    } else {
      NewerAfterCut(queue[1..], k - 1, since);
      assert queue[1..][k - 1..] == queue[k..];
    }
  }

  /** What is newer than some moment is the end of an oldest-first queue. */
  lemma NewerIsSuffix(queue: seq<Pull>, since: int)
    requires Ascending(queue)
    ensures var k := |queue| - |Newer(queue, since)|;
            && Newer(queue, since) == queue[k..]
            && (forall i :: 0 <= i < k ==> queue[i].updated <= since)
            && (forall i :: k <= i < |queue| ==> queue[i].updated > since)
  {
    hide Newer;
    NewerAfterCut(queue, Cut(queue, since), since);
  }

  lemma {:induction false} AllNewer(queue: seq<Pull>, since: int)
    requires forall i :: 0 <= i < |queue| ==> queue[i].updated > since
    ensures Newer(queue, since) == queue
  {
    if queue != [] { AllNewer(queue[1..], since); }
  }

  lemma NewerOfCons(p: Pull, rest: seq<Pull>, since: int)
    ensures Newer([p] + rest, since) == if p.updated > since then [p] + Newer(rest, since) else Newer(rest, since)
  {
    assert ([p] + rest)[1..] == rest;
  }

  lemma {:induction false} NewerOfNewer(pulls: seq<Pull>, since: int, later: int)
    requires since <= later
    ensures Newer(Newer(pulls, since), later) == Newer(pulls, later)
  {
    if pulls != [] {
      NewerOfNewer(pulls[1..], since, later);
      NewerOfCons(pulls[0], Newer(pulls[1..], since), later);
    }
  }

  lemma {:induction false} ChangedOfNewer(pulls: seq<Pull>, since: int)
    ensures Changed(Newer(pulls, since)) == Newer(Changed(pulls), since)
  {
    if pulls != [] {
      ChangedOfNewer(pulls[1..], since);
      NewerOfCons(pulls[0], Changed(pulls[1..]), since);
      assert ([pulls[0]] + Newer(pulls[1..], since))[1..] == Newer(pulls[1..], since);
    }
  }

  lemma {:induction false} InsertOfNewer(p: Pull, queue: seq<Pull>, since: int)
    requires Ascending(queue)
    ensures Newer(Insert(p, queue), since) ==
            if p.updated > since then Insert(p, Newer(queue, since)) else Newer(queue, since)
  {
    if queue != [] {
      assert Ascending(queue[1..]);
      if p.updated <= queue[0].updated {
        NewerOfCons(p, queue, since);
        if p.updated > since { AllNewer(queue, since); }
      } else {
        InsertOfNewer(p, queue[1..], since);
        NewerOfCons(queue[0], Insert(p, queue[1..]), since);
        if queue[0].updated > since {
          assert Newer(queue, since)[1..] == Newer(queue[1..], since);
        }
      }
    }
  }

  /** Sorting what is newer is taking what is newer of the sorted list: ties keep their places. */
  lemma {:induction false} SortOfNewer(pulls: seq<Pull>, since: int)
    ensures OldestFirst(Newer(pulls, since)) == Newer(OldestFirst(pulls), since)
  {
    if pulls != [] {
      SortOfNewer(pulls[1..], since);
      OldestFirstSorts(pulls[1..]);
      InsertOfNewer(pulls[0], OldestFirst(pulls[1..]), since);
      if pulls[0].updated > since {
        assert Newer(pulls, since)[1..] == Newer(pulls[1..], since);
      }
    }
  }

  /** A later watermark leaves the end of the queue an earlier one left. */
  lemma QueueShrinks(listing: seq<Pull>, since: int, later: int, limit: nat)
    requires NewestFirst(listing) && since <= later && |Newer(listing, since)| < limit
    ensures |Newer(listing, later)| < limit
    ensures Queue(listing, later, limit) == Newer(Queue(listing, since, limit), later)
  {
    NewerOfNewer(listing, since, later);
    WalkTakesTheNewest(listing, since, limit);
    WalkTakesTheNewest(listing, later, limit);
    ChangedOfNewer(Newer(listing, since), later);
    SortOfNewer(Changed(Newer(listing, since)), later);
    hide Walk, Newer, Changed, OldestFirst, NewestFirst;
  }

  // ------------------------------------------------------- passes over a queue

  /** What the next pass finds, once the watermark is one second behind the last of the chunk. */
  function Remaining(queue: seq<Pull>): seq<Pull>
  {
    if queue == [] then []
    else Newer(queue, Chunk(queue)[|Chunk(queue)| - 1].updated - WATERMARK_OVERLAP)
  }

  function Members(pulls: seq<Pull>): set<Pull> { set p | p in pulls }

  /** The pull requests read in `n` passes. */
  function ReadIn(queue: seq<Pull>, n: nat): set<Pull>
    decreases n
  {
    if n == 0 then {} else Members(Chunk(queue)) + ReadIn(Remaining(queue), n - 1)
  }

  /** How many pull requests were updated in second `t`. */
  function AtSecond(queue: seq<Pull>, t: int): int
  {
    |Newer(queue, t - 1)| - |Newer(queue, t)|
  }

  /** No second fills a chunk, or nothing is left over once it does. */
  ghost predicate Roomy(queue: seq<Pull>)
  {
    forall t :: AtSecond(queue, t) < REVIEW_FANOUT_LIMIT || |Newer(queue, t - 1)| <= REVIEW_FANOUT_LIMIT
  }

  predicate AllDifferent(queue: seq<Pull>)
  {
    forall i, j :: 0 <= i < j < |queue| ==> queue[i] != queue[j]
  }

  /** What a pass reads and what it leaves are both of the queue. */
  lemma ChunkAndRest(queue: seq<Pull>)
    ensures Members(Chunk(queue)) <= Members(queue) && Members(Remaining(queue)) <= Members(queue)
  {
    if queue != [] { NewerMembers(queue, Chunk(queue)[|Chunk(queue)| - 1].updated - WATERMARK_OVERLAP); }
    hide Newer;
    forall p | p in Chunk(queue) ensures p in queue {
      var k :| 0 <= k < |Chunk(queue)| && Chunk(queue)[k] == p;
      assert queue[k] == p;
    }
  }

  /** Passes keep to the queue. */
  lemma {:induction false} ReadsAreFromTheQueue(queue: seq<Pull>, n: nat)
    ensures ReadIn(queue, n) <= Members(queue)
    decreases n
  {
    if n > 0 {
      ChunkAndRest(queue);
      hide Members, Remaining, Chunk;
      ReadsAreFromTheQueue(Remaining(queue), n - 1);
    }
  }

  lemma SuffixAscends(queue: seq<Pull>, k: nat)
    requires Ascending(queue) && k <= |queue|
    ensures Ascending(queue[k..])
  {
  }

  lemma SuffixDiffers(queue: seq<Pull>, k: nat)
    requires AllDifferent(queue) && k <= |queue|
    ensures AllDifferent(queue[k..])
  {
  }

  /** Where a full chunk ends, and what it leaves: an end of the queue, all of it at or after that second. */
  lemma FullChunk(queue: seq<Pull>) returns (u: int, k: nat)
    requires Ascending(queue) && |queue| > REVIEW_FANOUT_LIMIT
    ensures u == queue[REVIEW_FANOUT_LIMIT - 1].updated
    ensures k < REVIEW_FANOUT_LIMIT && Remaining(queue) == queue[k..] && Remaining(queue) == Newer(queue, u - 1)
    ensures forall i :: 0 <= i < k ==> queue[i].updated < u
    ensures forall i :: k <= i < |queue| ==> queue[i].updated >= u
  {
    hide Newer;
    u := queue[REVIEW_FANOUT_LIMIT - 1].updated;
    NewerIsSuffix(queue, u - 1);
    k := |queue| - |Newer(queue, u - 1)|;
  }

  /** A roomy queue is not handed back whole. */
  lemma RoomyProgress(queue: seq<Pull>)
    requires Ascending(queue) && |queue| > REVIEW_FANOUT_LIMIT && Roomy(queue)
    ensures |Remaining(queue)| < |queue|
  {
    hide Newer;
    var u, k := FullChunk(queue);
    if k == 0 {
      NewerIsSuffix(queue, u);
      assert |queue| - |Newer(queue, u)| >= REVIEW_FANOUT_LIMIT;
      var crowd := AtSecond(queue, u);
    }
  }

  /** What is left of a roomy queue is roomy. */
  lemma RoomyStaysRoomy(queue: seq<Pull>, since: int)
    requires Roomy(queue)
    ensures Roomy(Newer(queue, since))
  {
    var rest := Newer(queue, since);
    NewerMembers(queue, since);
    forall t ensures AtSecond(rest, t) < REVIEW_FANOUT_LIMIT || |Newer(rest, t - 1)| <= REVIEW_FANOUT_LIMIT {
      assert AtSecond(queue, t) < REVIEW_FANOUT_LIMIT || |Newer(queue, t - 1)| <= REVIEW_FANOUT_LIMIT;
      if t > since {
        NewerOfNewer(queue, since, t - 1);
        NewerOfNewer(queue, since, t);
      } else {
        forall i | 0 <= i < |rest| ensures rest[i].updated > since { assert rest[i] in rest; }
        AllNewer(rest, t - 1);
        AllNewer(rest, t);
      }
    }
  }

  lemma FullPassReads(queue: seq<Pull>, k: nat)
    requires k < REVIEW_FANOUT_LIMIT < |queue|
    ensures Members(queue) == Members(Chunk(queue)) + Members(queue[k..])
  {
    forall p | p in queue ensures p in Chunk(queue) || p in queue[k..] {
      var i :| 0 <= i < |queue| && queue[i] == p;
      if i < k { assert Chunk(queue)[i] == p; } else { assert queue[k..][i - k] == p; }
    }
    forall p | p in Chunk(queue) ensures p in queue {
      var i :| 0 <= i < |Chunk(queue)| && Chunk(queue)[i] == p;
      assert queue[i] == p;
    }
  }

  /** A roomy queue is read to its end in as many passes as it has entries, and mostly far fewer. */
  lemma {:induction false} RoomyQueuesAreFinished(queue: seq<Pull>, n: nat)
    requires Ascending(queue) && Roomy(queue) && n >= |queue|
    ensures ReadIn(queue, n) == Members(queue)
    decreases n
  {
    hide Newer, Members;
    if |queue| > REVIEW_FANOUT_LIMIT {
      var u, k := FullChunk(queue);
      RoomyProgress(queue);
      RoomyStaysRoomy(queue, u - 1);
      SuffixAscends(queue, k);
      hide Roomy, Remaining, Ascending;
      RoomyQueuesAreFinished(queue[k..], n - 1);
      FullPassReads(queue, k);
    } else {
      ReadsAreFromTheQueue(queue, n);
      hide Roomy, Remaining, Ascending;
      if queue == [] { assert Members(queue) == {} by { NoMembers(queue); } }
    }
  }

  lemma NoMembers(queue: seq<Pull>)
    requires queue == []
    ensures Members(queue) == {}
  {
  }

  /** The last of a queue longer than a chunk is not in the chunk. */
  lemma NewestIsNotInChunk(queue: seq<Pull>)
    requires AllDifferent(queue) && |queue| > REVIEW_FANOUT_LIMIT
    ensures queue[|queue| - 1] !in Members(Chunk(queue))
  {
    forall i | 0 <= i < |Chunk(queue)| ensures Chunk(queue)[i] != queue[|queue| - 1] {
      assert Chunk(queue)[i] == queue[i];
    }
  }

  /** A crowded second is still all there after the pass. */
  lemma CrowdStays(queue: seq<Pull>, t: int)
    requires Ascending(queue) && |queue| > REVIEW_FANOUT_LIMIT && Crowded(queue, t)
    ensures var rest := Remaining(queue);
            AtSecond(rest, t) == AtSecond(queue, t) && Newer(rest, t - 1) == Newer(queue, t - 1)
  {
    hide Newer;
    var u, k := FullChunk(queue);
    NewerIsSuffix(queue, t);
    assert |queue| - |Newer(queue, t)| >= REVIEW_FANOUT_LIMIT;
    assert u <= t;
    hide Ascending, Remaining;
    NewerOfNewer(queue, u - 1, t - 1);
    NewerOfNewer(queue, u - 1, t);
  }

  /** A second that fills a chunk and still has more after it. */
  predicate Crowded(queue: seq<Pull>, t: int)
  {
    AtSecond(queue, t) >= REVIEW_FANOUT_LIMIT && |Newer(queue, t - 1)| > REVIEW_FANOUT_LIMIT
  }

  /** What a pass leaves of a queue with a crowded second: the same end, and the second still crowded. */
  lemma CrowdedPass(queue: seq<Pull>, t: int) returns (rest: seq<Pull>)
    requires Ascending(queue) && AllDifferent(queue) && Crowded(queue, t)
    ensures rest == Remaining(queue) && queue != [] && rest != [] && rest[|rest| - 1] == queue[|queue| - 1]
    ensures Ascending(rest) && AllDifferent(rest) && Crowded(rest, t)
    ensures queue[|queue| - 1] !in Members(Chunk(queue))
  {
    hide Newer, AtSecond, Members;
    var u, k := FullChunk(queue);
    rest := queue[k..];
    CrowdStays(queue, t);
    SuffixAscends(queue, k);
    SuffixDiffers(queue, k);
    NewestIsNotInChunk(queue);
    hide Remaining, Ascending, AllDifferent, Chunk;
  }

  /** A crowded second is never passed: the newest entry is never read. */
  lemma {:induction false} CrowdedSecondStalls(queue: seq<Pull>, t: int, n: nat)
    requires Ascending(queue) && AllDifferent(queue) && Crowded(queue, t)
    ensures queue != [] && queue[|queue| - 1] !in ReadIn(queue, n)
    decreases n
  {
    hide Newer, AtSecond, Members, Remaining, Chunk, Ascending, AllDifferent, Crowded;
    var rest := CrowdedPass(queue, t);
    if n > 0 {
      CrowdedSecondStalls(rest, t, n - 1);
      assert ReadIn(queue, n) == Members(Chunk(queue)) + ReadIn(rest, n - 1);
    } else {
      assert ReadIn(queue, n) == {};
    }
  }

  /** Passes finish a queue exactly if it is roomy. */
  lemma QueuesAreFinishedIff(queue: seq<Pull>)
    requires Ascending(queue) && AllDifferent(queue)
    ensures Roomy(queue) <==> forall n: nat :: n >= |queue| ==> ReadIn(queue, n) == Members(queue)
  {
    if Roomy(queue) {
      forall n: nat | n >= |queue| ensures ReadIn(queue, n) == Members(queue) {
        RoomyQueuesAreFinished(queue, n);
      }
    } else {
      var t :| !(AtSecond(queue, t) < REVIEW_FANOUT_LIMIT || |Newer(queue, t - 1)| <= REVIEW_FANOUT_LIMIT);
      CrowdedSecondStalls(queue, t, |queue|);
      assert queue[|queue| - 1] in queue;
      hide ReadIn, Newer, AtSecond;
    }
  }

  // ------------------------------------------------------- passes of the stream

  /** The stream after `n` uninterrupted passes over a list that stands still. */
  function AfterPasses(st: Progress, listing: seq<Pull>, floor: int, maxPages: nat,
                       reviews: Pull -> seq<Option<Review>>, n: nat): Progress
    decreases n
  {
    if n == 0 then st
    else AfterPasses(AfterPass(st, listing, floor, maxPages, reviews, Clean), listing, floor, maxPages, reviews, n - 1)
  }

  function ReviewsOfSet(pulls: set<Pull>, reviews: Pull -> seq<Option<Review>>): set<Review>
  {
    set p, r | p in pulls && r in ReviewsOf(p, reviews) :: r
  }

  lemma {:induction false} ReviewsOfMembers(pulls: seq<Pull>, reviews: Pull -> seq<Option<Review>>)
    ensures ReviewsOfAll(pulls, reviews) == ReviewsOfSet(Members(pulls), reviews)
  {
    hide ReviewsOf;
    if pulls != [] {
      ReviewsOfMembers(pulls[1..], reviews);
      assert Members(pulls) == {pulls[0]} + Members(pulls[1..]);
    }
  }

  lemma ReviewsOfUnion(some: set<Pull>, more: set<Pull>, reviews: Pull -> seq<Option<Review>>)
    ensures ReviewsOfSet(some + more, reviews) == ReviewsOfSet(some, reviews) + ReviewsOfSet(more, reviews)
  {
    hide ReviewsOf;
  }

  /** The watermark a complete pass over a queue leaves. */
  function Mark(queue: seq<Pull>, cursor: Option<int>): Option<int>
  {
    if queue == [] then cursor else Some(Chunk(queue)[|Chunk(queue)| - 1].updated - WATERMARK_OVERLAP)
  }

  /** What an uninterrupted pass with a complete walk stores, and where it leaves the watermark. */
  lemma CleanPass(st: Progress, listing: seq<Pull>, floor: int, maxPages: nat, reviews: Pull -> seq<Option<Review>>)
    requires |Walk(listing, Since(st, floor), maxPages * PAGE_SIZE)| < maxPages * PAGE_SIZE
    ensures var st' := AfterPass(st, listing, floor, maxPages, reviews, Clean);
            var queue := Queue(listing, Since(st, floor), maxPages * PAGE_SIZE);
            && st'.stored == Flush(ReadAll(Shelf(st.stored, [], 0, 0), Chunk(queue), reviews, Clean)).stored
            && st'.cursor == Mark(queue, st.cursor)
  {
    hide Walk, Changed, OldestFirst, ReadAll, Flush;
  }

  lemma PassStores(stored: set<Review>, batch: seq<Pull>, reviews: Pull -> seq<Option<Review>>)
    ensures Flush(ReadAll(Shelf(stored, [], 0, 0), batch, reviews, Clean)).stored ==
            stored + ReviewsOfSet(Members(batch), reviews)
  {
    var sh := Shelf(stored, [], 0, 0);
    ReadsAreKept(sh, batch, reviews, Clean);
    ReviewsOfMembers(batch, reviews);
    assert Flush(sh).stored == stored;
    hide ReadAll, Flush, ReviewsOfSet, Members, ReviewsOfAll;
  }

  lemma CompleteWalk(listing: seq<Pull>, since: int, limit: nat)
    requires NewestFirst(listing) && |Newer(listing, since)| < limit
    ensures |Walk(listing, since, limit)| < limit
  {
    WalkTakesTheNewest(listing, since, limit);
    hide Walk, Newer, NewestFirst;
  }

  /** The chunk of a queue moves the watermark no further back than it was. */
  predicate MovesOn(queue: seq<Pull>, since: int)
  {
    queue == [] || since <= Chunk(queue)[|Chunk(queue)| - 1].updated - WATERMARK_OVERLAP
  }

  lemma QueueMovesOn(listing: seq<Pull>, since: int, limit: nat)
    requires NewestFirst(listing)
    ensures MovesOn(Queue(listing, since, limit), since)
  {
    var queue := Queue(listing, since, limit);
    var batch := Chunk(queue);
    CompleteQueue(listing, since, limit);
    hide Walk, NewestFirst, Ascending, Queue;
    if queue != [] {
      assert batch[|batch| - 1] == queue[|batch| - 1] && queue[|batch| - 1] in queue;
    }
  }

  lemma RemainingSince(st: Progress, st': Progress, listing: seq<Pull>, floor: int, limit: nat)
    requires NewestFirst(listing) && |Newer(listing, Since(st, floor))| < limit
    requires MovesOn(Queue(listing, Since(st, floor), limit), Since(st, floor))
    requires st'.cursor == Mark(Queue(listing, Since(st, floor), limit), st.cursor)
    ensures |Newer(listing, Since(st', floor))| < limit
    ensures Queue(listing, Since(st', floor), limit) == Remaining(Queue(listing, Since(st, floor), limit))
  {
    hide Newer, NewestFirst, Queue, Chunk;
    var queue := Queue(listing, Since(st, floor), limit);
    if queue != [] {
      QueueShrinks(listing, Since(st, floor), Since(st', floor), limit);
    }
  }

  /** One clean pass: its chunk is stored, and the next pass finds what remains. */
  lemma PassReadsItsChunk(st: Progress, listing: seq<Pull>, floor: int, maxPages: nat,
                          reviews: Pull -> seq<Option<Review>>)
    requires NewestFirst(listing) && |Newer(listing, Since(st, floor))| < maxPages * PAGE_SIZE
    ensures var limit, st' := maxPages * PAGE_SIZE, AfterPass(st, listing, floor, maxPages, reviews, Clean);
            var queue := Queue(listing, Since(st, floor), limit);
            && st'.stored == st.stored + ReviewsOfSet(Members(Chunk(queue)), reviews)
            && |Newer(listing, Since(st', floor))| < limit
            && Queue(listing, Since(st', floor), limit) == Remaining(queue)
  {
    hide Walk, Newer, NewestFirst, Queue, AfterPass, ReviewsOfSet, Members, ReadAll, Flush, Remaining, Since;
    hide Chunk, Mark, MovesOn;
    var since, limit := Since(st, floor), maxPages * PAGE_SIZE;
    CompleteWalk(listing, since, limit);
    QueueMovesOn(listing, since, limit);
    CleanPass(st, listing, floor, maxPages, reviews);
    PassStores(st.stored, Chunk(Queue(listing, since, limit)), reviews);
    RemainingSince(st, AfterPass(st, listing, floor, maxPages, reviews, Clean), listing, floor, limit);
  }

  // -------------------------------------------------- the watermark and the window

  /** The pull requests that changed after `mark` and have a number and a node id. */
  function ReadableAfter(listing: seq<Pull>, mark: int): seq<Pull>
  {
    if listing == [] then []
    else
      (if listing[0].updated > mark && listing[0].number != 0 && listing[0].nodeId != "" then [listing[0]] else []) +
      ReadableAfter(listing[1..], mark)
  }

  lemma {:induction false} ReadableAfterIsChanged(listing: seq<Pull>, mark: int)
    ensures ReadableAfter(listing, mark) == Changed(Newer(listing, mark))
  {
    if listing != [] {
      ReadableAfterIsChanged(listing[1..], mark);
      assert ([listing[0]] + Newer(listing[1..], mark))[1..] == Newer(listing[1..], mark);
    }
  }

  /** From a watermark a clean complete pull-request pass stores exactly the rows that map and are newer than it. */
  lemma WatermarkOutranksTheWindow(st: Progress, listing: seq<Pull>, mark: int, floor: int, maxPages: nat)
    requires st.cursor == Some(mark) && NewestFirst(listing) && |Newer(listing, mark)| < maxPages * PAGE_SIZE
    ensures AfterPullPass(st, listing, floor, maxPages, Unhurt).stored == st.stored +
              set p | p in listing && p.updated > mark && p.nodeId != "" && p.created.Some? :: p.nodeId
  {
    hide Walk, Mappables, Newest, Newer, NewestFirst, RowsOf;
    var limit := maxPages * PAGE_SIZE;
    var walked := Walk(listing, mark, limit);
    WalkTakesTheNewest(listing, mark, limit);
    WalkMembers(listing, mark, limit);
    MappablesAreMapped(walked);
    var rows := Mappables(walked);
    forall id | id in Distinct(RowsOf(rows)) ensures exists p :: p in rows && p.nodeId == id {
      RowIsOfSome(rows, id);
    }
    forall p | p in rows ensures p.nodeId in Distinct(RowsOf(rows)) { FlushHoldsRows(rows, p); }
  }

  lemma RowIsOfSome(pulls: seq<Pull>, id: Review)
    requires id in Distinct(RowsOf(pulls))
    ensures exists p :: p in pulls && p.nodeId == id
  {
    var k :| 0 <= k < |RowsOf(pulls)| && RowsOf(pulls)[k] == id;
    assert pulls[k] in pulls && pulls[k].nodeId == id;
  }

  /**
   And a clean complete review pass, if a chunk holds them, exactly the reviews of the pull requests that
   are newer and can be read. Neither pass looks at the window: the watermark outranks it.
   */
  lemma WatermarkOutranksTheWindowForReviews(st: Progress, listing: seq<Pull>, mark: int, floor: int, maxPages: nat,
                                             reviews: Pull -> seq<Option<Review>>)
    requires st.cursor == Some(mark) && NewestFirst(listing) && |Newer(listing, mark)| < maxPages * PAGE_SIZE
    requires |ReadableAfter(listing, mark)| <= REVIEW_FANOUT_LIMIT
    ensures AfterPass(st, listing, floor, maxPages, reviews, Clean).stored == st.stored +
              set p, k | p in listing && p.updated > mark && p.number != 0 && p.nodeId != "" &&
                         0 <= k < |reviews(p)| && reviews(p)[k].Some? :: reviews(p)[k].value
  {
    hide Walk, Changed, OldestFirst, Newer, NewestFirst, AfterPass, ReadableAfter, Ascending, Chunk, Queue, Members;
    var limit := maxPages * PAGE_SIZE;
    PassReadsItsChunk(st, listing, floor, maxPages, reviews);
    var queue := Queue(listing, mark, limit);
    WholeQueue(listing, mark, limit);
    var pulls := Members(queue);
    var expected := set p, k | p in listing && p.updated > mark && p.number != 0 && p.nodeId != "" &&
                               0 <= k < |reviews(p)| && reviews(p)[k].Some? :: reviews(p)[k].value;
    forall r | r in ReviewsOfSet(pulls, reviews) ensures r in expected {
      var p :| p in pulls && r in ReviewsOf(p, reviews);
      var k :| 0 <= k < |reviews(p)| && reviews(p)[k].Some? && reviews(p)[k].value == r;
    }
    forall r | r in expected ensures r in ReviewsOfSet(pulls, reviews) {
      var p, k :| p in listing && p.updated > mark && p.number != 0 && p.nodeId != "" &&
                  0 <= k < |reviews(p)| && reviews(p)[k].Some? && reviews(p)[k].value == r;
      assert p in pulls && r in ReviewsOf(p, reviews);
    }
  }

  /** A queue within a chunk is read whole, and holds what is newer and can be read. */
  lemma WholeQueue(listing: seq<Pull>, mark: int, limit: nat)
    requires NewestFirst(listing) && |Newer(listing, mark)| < limit
    requires |ReadableAfter(listing, mark)| <= REVIEW_FANOUT_LIMIT
    ensures var queue := Queue(listing, mark, limit);
            && Chunk(queue) == queue
            && forall p :: p in Members(queue) <==>
                 p in listing && p.updated > mark && p.number != 0 && p.nodeId != ""
  {
    ReadableAfterIsChanged(listing, mark);
    WalkTakesTheNewest(listing, mark, limit);
    OldestFirstSorts(Changed(Walk(listing, mark, limit)));
    CompleteWalk(listing, mark, limit);
    CompleteQueue(listing, mark, limit);
    hide Walk, Changed, OldestFirst, Newer, NewestFirst, ReadableAfter, Ascending;
  }

  /** Over any number of passes, what is stored is exactly the reviews of the pull requests read. */
  lemma {:induction false} PassesStoreWhatTheyRead(st: Progress, listing: seq<Pull>, floor: int, maxPages: nat,
                                                   reviews: Pull -> seq<Option<Review>>, n: nat)
    requires NewestFirst(listing) && |Newer(listing, Since(st, floor))| < maxPages * PAGE_SIZE
    ensures var queue := Queue(listing, Since(st, floor), maxPages * PAGE_SIZE);
            AfterPasses(st, listing, floor, maxPages, reviews, n).stored ==
              st.stored + ReviewsOfSet(ReadIn(queue, n), reviews)
    decreases n
  {
    hide AfterPass, Remaining, ReviewsOfSet, Members, NewestFirst, Newer, Queue, Since, Chunk;
    var queue := Queue(listing, Since(st, floor), maxPages * PAGE_SIZE);
    if n == 0 {
      ReviewsOfNobody(reviews);
    } else {
      PassReadsItsChunk(st, listing, floor, maxPages, reviews);
      PassesStoreWhatTheyRead(AfterPass(st, listing, floor, maxPages, reviews, Clean), listing, floor, maxPages,
                              reviews, n - 1);
      ReviewsOfUnion(Members(Chunk(queue)), ReadIn(Remaining(queue), n - 1), reviews);
    }
  }

  lemma ReviewsOfNobody(reviews: Pull -> seq<Option<Review>>)
    ensures ReviewsOfSet({}, reviews) == {}
  {
  }

  /**
   Over a list that stands still, whose walk is complete, repeated passes store the reviews of every
   outstanding pull request, provided no second is crowded.
   */
  lemma RoomyStreamsFinish(st: Progress, listing: seq<Pull>, floor: int, maxPages: nat,
                           reviews: Pull -> seq<Option<Review>>, n: nat, p: Pull)
    requires NewestFirst(listing) && |Newer(listing, Since(st, floor))| < maxPages * PAGE_SIZE
    requires Roomy(Queue(listing, Since(st, floor), maxPages * PAGE_SIZE)) && n >= |listing|
    requires p in listing && Known(p) && p.updated > Since(st, floor)
    ensures ReviewsOf(p, reviews) <= AfterPasses(st, listing, floor, maxPages, reviews, n).stored
  {
    var since, limit := Since(st, floor), maxPages * PAGE_SIZE;
    var queue := Queue(listing, since, limit);
    PassesStoreWhatTheyRead(st, listing, floor, maxPages, reviews, n);
    CompleteQueue(listing, since, limit);
    WalkTakesTheNewest(listing, since, limit);
    QueueLength(listing, since, limit);
    RoomyQueuesAreFinished(queue, n);
    assert p in Members(queue);
    hide AfterPasses, Roomy, NewestFirst, Ascending, Queue, Newer, ReviewsOf, ReadIn;
  }

  lemma {:induction false} ChangedIsShorter(walked: seq<Pull>)
    ensures |Changed(walked)| <= |walked|
  {
    if walked != [] { ChangedIsShorter(walked[1..]); }
  }

  lemma QueueLength(listing: seq<Pull>, since: int, limit: nat)
    requires NewestFirst(listing)
    ensures |Queue(listing, since, limit)| <= |listing|
  {
    WalkTakesTheNewest(listing, since, limit);
    ChangedIsShorter(Walk(listing, since, limit));
    OldestFirstSorts(Changed(Walk(listing, since, limit)));
    hide Walk, Changed, OldestFirst, NewestFirst, Newer, Ascending;
  }

  /** A pass whose walk its pages cut short: the watermark stays, and the one chunk is stored. */
  lemma TruncatedPass(st: Progress, listing: seq<Pull>, floor: int, maxPages: nat, reviews: Pull -> seq<Option<Review>>)
    requires NewestFirst(listing) && |Newer(listing, Since(st, floor))| >= maxPages * PAGE_SIZE
    ensures var st' := AfterPass(st, listing, floor, maxPages, reviews, Clean);
            var chunk := Chunk(Queue(listing, Since(st, floor), maxPages * PAGE_SIZE));
            && st'.cursor == st.cursor
            && st'.stored == st.stored + ReviewsOfSet(Members(chunk), reviews)
  {
    WalkTakesTheNewest(listing, Since(st, floor), maxPages * PAGE_SIZE);
    PassStores(st.stored, Chunk(Queue(listing, Since(st, floor), maxPages * PAGE_SIZE)), reviews);
    hide ReadAll, Flush, Walk, Changed, OldestFirst, Chunk, Newer, NewestFirst, ReviewsOfSet, Members;
  }

  /**
   A walk its pages cut short never moves the watermark, so no number of passes gets past it: they
   all read the same chunk, and whatever lies beyond it is never read.
   */
  lemma {:induction false} TruncatedWalksStall(st: Progress, listing: seq<Pull>, floor: int, maxPages: nat,
                                               reviews: Pull -> seq<Option<Review>>, n: nat)
    requires NewestFirst(listing) && |Newer(listing, Since(st, floor))| >= maxPages * PAGE_SIZE
    ensures var later := AfterPasses(st, listing, floor, maxPages, reviews, n);
            var chunk := Chunk(Queue(listing, Since(st, floor), maxPages * PAGE_SIZE));
            && later.cursor == st.cursor
            && later.stored == if n == 0 then st.stored else st.stored + ReviewsOfSet(Members(chunk), reviews)
    decreases n
  {
    hide AfterPass, NewestFirst, Newer, Queue, Chunk, ReviewsOfSet, Members;
    if n > 0 {
      TruncatedPass(st, listing, floor, maxPages, reviews);
      TruncatedWalksStall(AfterPass(st, listing, floor, maxPages, reviews, Clean), listing, floor, maxPages, reviews,
                          n - 1);
    }
  }
}
