/**
 One pass of the review stream, as values: the walk over the changed pull requests, the chunk it
 takes, what it stores, and where it leaves the watermark. Times are whole seconds.
 */
module ReviewPasses {
  import opened Options
  import Upserts

  const REVIEW_FANOUT_LIMIT := 150
  const WATERMARK_OVERLAP := 1
  const PAGE_SIZE := 100

  /** A pull request as the list shows it; 0 and the empty string stand for a missing field. */
  datatype Pull = Pull(number: int, nodeId: string, created: Option<int>, updated: int)

  /** A review artifact, by its identity. */
  type Review = string

  predicate Known(p: Pull) { p.number != 0 && p.nodeId != "" }

  /** `reader.pull_requests`: newest first, stopping at the watermark, cut at `limit` items. */
  function Walk(listing: seq<Pull>, since: int, limit: nat): seq<Pull>
  {
    if listing == [] || limit == 0 || listing[0].updated <= since then []
    else [listing[0]] + Walk(listing[1..], since, limit - 1)
  }

  function Changed(walked: seq<Pull>): seq<Pull>
  {
    if walked == [] then []
    else if Known(walked[0]) then [walked[0]] + Changed(walked[1..])
    else Changed(walked[1..])
  }

  function Insert(p: Pull, queue: seq<Pull>): seq<Pull>
  {
    if queue == [] || p.updated <= queue[0].updated then [p] + queue else [queue[0]] + Insert(p, queue[1..])
  }

  /** `changed.sort(key=updated)`, which keeps the order of ties. */
  function OldestFirst(pulls: seq<Pull>): seq<Pull>
  {
    if pulls == [] then [] else Insert(pulls[0], OldestFirst(pulls[1..]))
  }

  /** The chunk a pass takes from the queue of outstanding pull requests. */
  function Chunk(queue: seq<Pull>): (batch: seq<Pull>)
    ensures batch <= queue && |batch| <= REVIEW_FANOUT_LIMIT && (queue != [] ==> batch != [])
  {
    if |queue| <= REVIEW_FANOUT_LIMIT then queue else queue[..REVIEW_FANOUT_LIMIT]
  }

  /** What a pass holds while it reads: rows stored, rows waiting for a flush, and the counters. */
  datatype Shelf = Shelf(stored: set<Review>, pending: seq<Review>, fetched: nat, written: nat)

  function Distinct(rows: seq<Review>): set<Review> { set r | r in rows }

  /** `_flush`. */
  function Flush(sh: Shelf): Shelf
  {
    Shelf(sh.stored + Distinct(sh.pending), [], sh.fetched, sh.written + |Distinct(sh.pending)|)
  }

  /** The reviews among the payloads of one pull request; `None` is one that does not map. */
  function Mapped(payloads: seq<Option<Review>>): seq<Review>
  {
    if payloads == [] then []
    else (if payloads[0].Some? then [payloads[0].value] else []) + Mapped(payloads[1..])
  }

  function Take(sh: Shelf, payloads: seq<Option<Review>>): Shelf
  {
    var taken := sh.(pending := sh.pending + Mapped(payloads), fetched := sh.fetched + |payloads|);
    if |taken.pending| >= Upserts.BATCH_SIZE then Flush(taken) else taken
  }

  /**
   Where a pass is interrupted, if it is: in the walk, reading the reviews of the `index`-th pull request or
   flushing them, or when all is stored and only the watermark is left to set.
   */
  datatype Fault = Clean | InWalk | InRead(index: nat) | InAdvance

  /** The shelf after the reads of a batch; an interruption leaves what was flushed before it. */
  function ReadAll(sh: Shelf, batch: seq<Pull>, reviews: Pull -> seq<Option<Review>>, fault: Fault): Shelf
    decreases |batch|
  {
    if batch == [] || fault == InRead(0) then sh
    else ReadAll(Take(sh, reviews(batch[0])), batch[1..], reviews,
                 if fault.InRead? then InRead(fault.index - 1) else fault)
  }

  predicate Interrupts(fault: Fault, batch: seq<Pull>)
  {
    fault.InWalk? || (fault.InRead? && fault.index < |batch|)
  }

  /** What outlives a pass: the stream's watermark and the stored reviews. */
  datatype Progress = Progress(cursor: Option<int>, stored: set<Review>)

  function Since(st: Progress, floor: int): int
  {
    if st.cursor.Some? then st.cursor.value else floor
  }

  /** `_sync_reviews`, as far as it outlives the call. */
  function AfterPass(st: Progress, listing: seq<Pull>, floor: int, maxPages: nat,
                     reviews: Pull -> seq<Option<Review>>, fault: Fault): Progress
  {
    if fault.InWalk? then st
    else
      var walked := Walk(listing, Since(st, floor), maxPages * PAGE_SIZE);
      var batch := Chunk(OldestFirst(Changed(walked)));
      var sh := ReadAll(Shelf(st.stored, [], 0, 0), batch, reviews, fault);
      if Interrupts(fault, batch) then st.(stored := sh.stored)
      else
        Progress(if batch != [] && |walked| < maxPages * PAGE_SIZE && !fault.InAdvance?
                 then Some(batch[|batch| - 1].updated - WATERMARK_OVERLAP) else st.cursor,
                 Flush(sh).stored)
  }
}

/**
 One pass of the pull-request stream: one walk, one flush, and the newest update as the watermark.
 */
module PullPasses {
  import opened Options
  import opened ReviewPasses

  /** `map_pull_request` makes an artifact of it. */
  predicate Mappable(p: Pull) { p.nodeId != "" && p.created.Some? }

  function Mappables(walked: seq<Pull>): seq<Pull>
  {
    if walked == [] then []
    else
      var n := |walked| - 1;
      Mappables(walked[..n]) + if Mappable(walked[n]) then [walked[n]] else []
  }

  /** The latest update among the mapped pull requests. */
  function Newest(pulls: seq<Pull>): Option<int>
  {
    if pulls == [] then None
    else
      var rest := Newest(pulls[..|pulls| - 1]);
      var updated := pulls[|pulls| - 1].updated;
      Some(if rest.Some? && rest.value > updated then rest.value else updated)
  }

  function RowsOf(pulls: seq<Pull>): seq<Review>
  {
    seq(|pulls|, k requires 0 <= k < |pulls| => pulls[k].nodeId)
  }

  /** How a pass ends: cleanly, in its walk or its flush, or when only the watermark is left to set. */
  datatype PullFault = Unhurt | BeforeFlush | BeforeAdvance

  /** `_sync_pull_requests`, as far as it outlives the call; a walk that raises stores nothing. */
  function AfterPullPass(st: Progress, listing: seq<Pull>, floor: int, maxPages: nat, fault: PullFault): Progress
  {
    if fault.BeforeFlush? then st
    else
      var walked := Walk(listing, Since(st, floor), maxPages * PAGE_SIZE);
      var newest := Newest(Mappables(walked));
      Progress(if newest.Some? && |walked| < maxPages * PAGE_SIZE && !fault.BeforeAdvance?
               then Some(newest.value - WATERMARK_OVERLAP) else st.cursor,
               st.stored + Distinct(RowsOf(Mappables(walked))))
  }
}

/**
 The stream object: the loops of `_sync_reviews` over a source row that holds the watermarks.
 */
module ArtifactSync {
  import opened Options
  import opened PullPasses
  import opened ReviewPasses

  datatype StreamResult = StreamResult(fetched: nat, written: nat, complete: bool)

  class SyncStream {
    var cursor: Option<int>
    var stored: set<Review>

    constructor ()
      ensures State() == Progress(None, {})
    {
      cursor, stored := None, {};
    }

    function State(): Progress
      reads this
    {
      Progress(cursor, stored)
    }

    /** `_advance`. */
    method Advance(newest: int)
      modifies this`cursor
      ensures cursor == Some(newest - WATERMARK_OVERLAP)
    {
      cursor := Some(newest - WATERMARK_OVERLAP);
    }

    /** `reset_cursors`, for this stream: whether there was a position to forget. */
    method ResetCursor() returns (cleared: bool)
      modifies this`cursor
      ensures cleared == old(cursor).Some? && cursor == None
    {
      cleared := cursor.Some?;
      cursor := None;
    }

    /** `_sync_pull_requests`; `None` is the error that interrupted it. */
    method SyncPullRequests(listing: seq<Pull>, floor: int, maxPages: nat, fault: PullFault)
      returns (result: Option<StreamResult>)
      modifies this
      ensures State() == AfterPullPass(old(State()), listing, floor, maxPages, fault)
      ensures var walked := Walk(listing, Since(old(State()), floor), maxPages * PAGE_SIZE);
              result.None? <==>
                fault.BeforeFlush? ||
                (fault.BeforeAdvance? && Mappables(walked) != [] && |walked| < maxPages * PAGE_SIZE)
      ensures var walked := Walk(listing, Since(old(State()), floor), maxPages * PAGE_SIZE);
              result.Some? ==>
                result.value == StreamResult(|walked|, |Distinct(RowsOf(Mappables(walked)))|,
                                             |walked| < maxPages * PAGE_SIZE)
    {
      hide Walk, Distinct, RowsOf, Mappables;
      if fault.BeforeFlush? {
        return None;
      }
      var since := if cursor.Some? then cursor.value else floor;
      var limit := maxPages * PAGE_SIZE;
      var artifacts, newest, fetched := CollectMapped(listing, since, limit);
      stored := stored + Distinct(artifacts);
      if newest.Some? && fetched < limit {
        if fault.BeforeAdvance? {
          return None;
        }
        Advance(newest.value);
      }
      result := Some(StreamResult(fetched, |Distinct(artifacts)|, fetched < limit));
    }

    /** The second loop of `_sync_reviews`: read, flush as it goes, and flush what is left. */
    method FanOut(batch: seq<Pull>, reviews: Pull -> seq<Option<Review>>, fault: Fault)
      returns (interrupted: bool, fetched: nat, written: nat, watermark: Option<int>)
      requires !fault.InWalk?
      modifies this`stored
      ensures interrupted == Interrupts(fault, batch)
      ensures var sh := ReadAll(Shelf(old(stored), [], 0, 0), batch, reviews, fault);
              if interrupted then stored == sh.stored
              else Flush(sh) == Shelf(stored, [], fetched, written)
      ensures !interrupted ==> watermark == if batch == [] then None else Some(batch[|batch| - 1].updated)
    {
      hide Mapped, Distinct;
      var artifacts: seq<Review> := [];
      interrupted, fetched, written, watermark := false, 0, 0, None;
      ghost var all := ReadAll(Shelf(stored, [], 0, 0), batch, reviews, fault);
      assert batch[0..] == batch;
      for k := 0 to |batch|
        invariant fault.InRead? ==> k <= fault.index
        invariant all == ReadAll(Shelf(stored, artifacts, fetched, written), batch[k..], reviews, Later(fault, k))
        invariant watermark == if k == 0 then None else Some(batch[k - 1].updated)
      {
        if fault == InRead(k) {
          interrupted := true;
          return;
        }
        var payloads := reviews(batch[k]);
        fetched := fetched + |payloads|;
        var mapped := MapReviews(payloads);
        artifacts := artifacts + mapped;
        if |artifacts| >= Upserts.BATCH_SIZE {
          written := written + |Distinct(artifacts)|;
          stored := stored + Distinct(artifacts);
          artifacts := [];
        }
        watermark := Some(batch[k].updated);
        assert batch[k..][1..] == batch[k + 1..];
      }
      written := written + |Distinct(artifacts)|;
      stored := stored + Distinct(artifacts);
    }

    /** `_sync_reviews`; `None` is the error that interrupted it. */
    method SyncReviews(listing: seq<Pull>, floor: int, maxPages: nat, reviews: Pull -> seq<Option<Review>>,
                       fault: Fault)
      returns (result: Option<StreamResult>)
      modifies this
      ensures State() == AfterPass(old(State()), listing, floor, maxPages, reviews, fault)
      ensures var walked := Walk(listing, Since(old(State()), floor), maxPages * PAGE_SIZE);
              var queue := OldestFirst(Changed(walked));
              result.None? <==>
                fault.InWalk? || (fault.InRead? && fault.index < |queue| && fault.index < REVIEW_FANOUT_LIMIT) ||
                (fault.InAdvance? && queue != [] && |walked| < maxPages * PAGE_SIZE)
      ensures var walked := Walk(listing, Since(old(State()), floor), maxPages * PAGE_SIZE);
              var queue := OldestFirst(Changed(walked));
              result.Some? ==>
                var sh := Flush(ReadAll(Shelf(old(stored), [], 0, 0), Chunk(queue), reviews, fault));
                result.value == StreamResult(sh.fetched, sh.written,
                                             |walked| < maxPages * PAGE_SIZE && |queue| <= REVIEW_FANOUT_LIMIT)
    {
      hide Walk, Changed, OldestFirst, ReadAll, Flush;
      if fault.InWalk? {
        return None;
      }
      var since := if cursor.Some? then cursor.value else floor;
      var limit := maxPages * PAGE_SIZE;
      var changed, walked := CollectChanged(listing, since, limit);
      var queue := OldestFirst(changed);
      var batch := Chunk(queue);
      var skipped := |queue| - |batch|;

      var interrupted, fetched, written, watermark := FanOut(batch, reviews, fault);
      if interrupted {
        return None;
      }
      if watermark.Some? && walked < limit {
        if fault.InAdvance? {
          return None;
        }
        Advance(watermark.value);
      }
      result := Some(StreamResult(fetched, written, walked < limit && skipped == 0));
    }
  }

  /** The first loop of `_sync_reviews`: the changed pull requests, and how many were walked. */
  method CollectChanged(listing: seq<Pull>, since: int, limit: nat) returns (changed: seq<Pull>, walked: nat)
    ensures walked == |Walk(listing, since, limit)|
    ensures changed == Changed(Walk(listing, since, limit))
  {
    hide Walk;
    changed, walked := [], 0;
    ghost var walk := Walk(listing, since, limit);
    assert listing[0..] == listing && listing[..0] == [];
    while walked < |listing| && walked < limit && listing[walked].updated > since
      invariant walked <= |listing| && walked <= limit
      invariant walk == listing[..walked] + Walk(listing[walked..], since, limit - walked)
      invariant changed == Changed(listing[..walked])
    {
      var payload := listing[walked];
      assert listing[..walked + 1] == listing[..walked] + [payload];
      WalkTurn(listing, since, limit, walked);
      ChangedAppends(listing[..walked], payload);
      if payload.number != 0 && payload.nodeId != "" {
        changed := changed + [payload];
      }
      walked := walked + 1;
    }
    WalkTurn(listing, since, limit, walked);
    assert walk == listing[..walked];
  }

  /** The loop of `_sync_pull_requests`: the rows, their latest update, and how many payloads there were. */
  method CollectMapped(listing: seq<Pull>, since: int, limit: nat)
    returns (artifacts: seq<Review>, newest: Option<int>, fetched: nat)
    ensures var walked := Walk(listing, since, limit);
            fetched == |walked| && artifacts == RowsOf(Mappables(walked)) && newest == Newest(Mappables(walked))
  {
    hide Walk, RowsOf, Newest;
    artifacts, newest, fetched := [], None, 0;
    ghost var walk := Walk(listing, since, limit);
    assert listing[0..] == listing && listing[..0] == [];
    assert RowsOf([]) == [] && Newest([]) == None by { NoRows(); }
    while fetched < |listing| && fetched < limit && listing[fetched].updated > since
      invariant fetched <= |listing| && fetched <= limit
      invariant walk == listing[..fetched] + Walk(listing[fetched..], since, limit - fetched)
      invariant artifacts == RowsOf(Mappables(listing[..fetched])) && newest == Newest(Mappables(listing[..fetched]))
    {
      var payload := listing[fetched];
      WalkTurn(listing, since, limit, fetched);
      MappablesAppend(listing[..fetched], payload);
      assert listing[..fetched + 1] == listing[..fetched] + [payload];
      if payload.nodeId != "" && payload.created.Some? {
        artifacts := artifacts + [payload.nodeId];
        newest := Some(if newest.Some? && newest.value > payload.updated then newest.value else payload.updated);
      }
      fetched := fetched + 1;
    }
    WalkTurn(listing, since, limit, fetched);
    assert walk == listing[..fetched];
  }

  lemma NoRows()
    ensures RowsOf([]) == [] && Newest([]) == None
  {
  }

  /** Where a walk stands after `k` payloads: it takes one more, or it is over. */
  lemma WalkTurn(listing: seq<Pull>, since: int, limit: nat, k: nat)
    requires k <= |listing| && k <= limit
    ensures var rest := Walk(listing[k..], since, limit - k);
            if k < |listing| && k < limit && listing[k].updated > since then
              rest == [listing[k]] + Walk(listing[k + 1..], since, limit - k - 1)
            else rest == []
  {
    if k < |listing| { assert listing[k..][1..] == listing[k + 1..]; }
  }

  lemma MappablesAppend(walked: seq<Pull>, p: Pull)
    ensures var before, after := Mappables(walked), Mappables(walked + [p]);
            if Mappable(p) then
              && RowsOf(after) == RowsOf(before) + [p.nodeId]
              && Newest(after) == Some(if Newest(before).Some? && Newest(before).value > p.updated
                                       then Newest(before).value else p.updated)
            else after == before
  {
    assert (walked + [p])[..|walked|] == walked;
    var before := Mappables(walked);
    assert (before + [p])[..|before|] == before;
  }

  /** The fault as it looks after `k` reads. */
  function Later(fault: Fault, k: nat): Fault
    requires fault.InRead? ==> k <= fault.index
  {
    if fault.InRead? then InRead(fault.index - k) else fault
  }

  lemma {:induction false} ChangedAppends(walked: seq<Pull>, p: Pull)
    ensures Changed(walked + [p]) == Changed(walked) + (if Known(p) then [p] else [])
  {
    if walked != [] {
      assert (walked + [p])[1..] == walked[1..] + [p];
      ChangedAppends(walked[1..], p);
    }
  }

  /** The inner loop over one pull request's payloads. */
  method MapReviews(payloads: seq<Option<Review>>) returns (mapped: seq<Review>)
    ensures mapped == Mapped(payloads)
  {
    mapped := [];
    for k := 0 to |payloads|
      invariant Mapped(payloads) == mapped + Mapped(payloads[k..])
    {
      assert payloads[k..][1..] == payloads[k + 1..];
      if payloads[k].Some? {
        mapped := mapped + [payloads[k].value];
      }
    }
  }
}
