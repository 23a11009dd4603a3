/**
 Batched upserts on an identity: what one write leaves in a table, and what any history of writes,
 repeats and interruptions leaves there.
 */
module Upserts {
  import opened Options

  /** A payload: its identity, the columns written once, and the columns every write refreshes. */
  datatype Item<F, M> = Item(id: string, fixed: F, mutable: M)

  datatype Row<F, M> = Row(fixed: F, mutable: M)

  type Table<F, M> = map<string, Row<F, M>>

  const BATCH_SIZE := 500

  function Ids<F, M>(items: seq<Item<F, M>>): set<string>
  {
    set k | 0 <= k < |items| :: items[k].id
  }

  predicate DistinctIds<F, M>(items: seq<Item<F, M>>)
  {
    forall i, j :: 0 <= i < j < |items| ==> items[i].id != items[j].id
  }

  /** `INSERT ... ON CONFLICT DO UPDATE` of one row. */
  function Upsert<F, M>(t: Table<F, M>, item: Item<F, M>): Table<F, M>
  {
    t[item.id := Row(if item.id in t then t[item.id].fixed else item.fixed, item.mutable)]
  }

  function UpsertAll<F, M>(t: Table<F, M>, items: seq<Item<F, M>>): Table<F, M>
  {
    if items == [] then t else Upsert(UpsertAll(t, items[..|items| - 1]), items[|items| - 1])
  }

  /** One statement; the database refuses one that names a row twice, or a row it may not reference. */
  function Statement<F, M>(t: Table<F, M>, batch: seq<Item<F, M>>, allowed: M -> bool): Option<Table<F, M>>
  {
    if DistinctIds(batch) && forall k :: 0 <= k < |batch| ==> allowed(batch[k].mutable)
    then Some(UpsertAll(t, batch)) else None
  }

  /** The payload a batch holds for an identity it names more than once: the last. */
  function LastOf<F, M>(items: seq<Item<F, M>>, id: string): (item: Item<F, M>)
    requires id in Ids(items)
    ensures item in items && item.id == id
  {
    var n := |items| - 1;
    if items[n].id == id then items[n] else LastOf(items[..n], id)
  }

  function FirstOf<F, M>(items: seq<Item<F, M>>, id: string): (item: Item<F, M>)
    requires id in Ids(items)
    ensures item in items && item.id == id
  {
    if items[0].id == id then items[0] else FirstOf(items[1..], id)
  }

  /** What a write of `items` makes of a table, identity by identity. */
  function Written<F, M>(t: Table<F, M>, items: seq<Item<F, M>>): Table<F, M>
  {
    map id | id in t.Keys + Ids(items) ::
      Row(if id in t then t[id].fixed else LastOf(items, id).fixed,
          if id in Ids(items) then LastOf(items, id).mutable else t[id].mutable)
  }

  // ------------------------------------------------------------ one write

  lemma IdsOfAppend<F, M>(xs: seq<Item<F, M>>, ys: seq<Item<F, M>>)
    ensures Ids(xs + ys) == Ids(xs) + Ids(ys)
  {
    forall id | id in Ids(xs) + Ids(ys) ensures id in Ids(xs + ys) {
      if id in Ids(xs) {
        var k :| 0 <= k < |xs| && xs[k].id == id;
        assert (xs + ys)[k].id == id;
      } else {
        var k :| 0 <= k < |ys| && ys[k].id == id;
        assert (xs + ys)[|xs| + k].id == id;
      }
    }
  }

  lemma {:induction false} LastOfAppend<F, M>(xs: seq<Item<F, M>>, ys: seq<Item<F, M>>, id: string)
    requires id in Ids(xs + ys)
    ensures id in Ids(ys) ==> LastOf(xs + ys, id) == LastOf(ys, id)
    ensures id !in Ids(ys) ==> id in Ids(xs) && LastOf(xs + ys, id) == LastOf(xs, id)
    decreases |ys|
  {
    IdsOfAppend(xs, ys);
    if ys == [] {
      assert xs + ys == xs;
    } else {
      var n := |ys| - 1;
      assert (xs + ys)[..|xs + ys| - 1] == xs + ys[..n];
      IdsOfAppend(ys[..n], [ys[n]]);
      assert ys[..n] + [ys[n]] == ys;
      if ys[n].id != id {
        IdsOfAppend(xs + ys[..n], [ys[n]]);
        assert xs + ys[..n] + [ys[n]] == xs + ys;
        LastOfAppend(xs, ys[..n], id);
      }
    }
  }

  lemma {:induction false} FirstOfAppend<F, M>(xs: seq<Item<F, M>>, y: Item<F, M>, id: string)
    requires id in Ids(xs)
    ensures id in Ids(xs + [y]) && FirstOf(xs + [y], id) == FirstOf(xs, id)
    decreases |xs|
  {
    IdsOfAppend(xs, [y]);
    if xs[0].id != id {
      IdsOfAppend([xs[0]], xs[1..]);
      assert [xs[0]] + xs[1..] == xs;
      assert (xs + [y])[1..] == xs[1..] + [y];
      FirstOfAppend(xs[1..], y, id);
    }
  }

  /** With distinct identities, one row after another is the same as all at once. */
  lemma {:induction false} UpsertingIsWriting<F, M>(t: Table<F, M>, items: seq<Item<F, M>>)
    requires DistinctIds(items)
    ensures UpsertAll(t, items) == Written(t, items)
    decreases |items|
  {
    if items != [] {
      var n := |items| - 1;
      var front, item := items[..n], items[n];
      UpsertingIsWriting(t, front);
      OneMoreRow(t, front, item);
      assert items == front + [item];
    }
  }

  lemma OneMoreRow<F, M>(t: Table<F, M>, front: seq<Item<F, M>>, item: Item<F, M>)
    requires item.id !in Ids(front)
    ensures Upsert(Written(t, front), item) == Written(t, front + [item])
  {
    IdsOfAppend(front, [item]);
    var before, after := Written(t, front), Written(t, front + [item]);
    assert [item][0].id in Ids([item]);
    forall id | id in after ensures Upsert(before, item).Keys == after.Keys && Upsert(before, item)[id] == after[id] {
      if id in Ids(front + [item]) { LastOfAppend(front, [item], id); }
    }
  }

  /** Writing in two parts: exactly when the parts agree on the fixed columns of what is new to both. */
  lemma WritingInPartsIff<F, M>(t: Table<F, M>, xs: seq<Item<F, M>>, ys: seq<Item<F, M>>)
    ensures Written(Written(t, xs), ys) == Written(t, xs + ys) <==>
              forall id :: id in Ids(xs) && id in Ids(ys) && id !in t ==> LastOf(xs, id).fixed == LastOf(ys, id).fixed
  {
    IdsOfAppend(xs, ys);
    var parts, whole := Written(Written(t, xs), ys), Written(t, xs + ys);
    assert parts.Keys == whole.Keys;
    forall id | id in whole
      ensures parts[id].mutable == whole[id].mutable
      ensures parts[id].fixed == whole[id].fixed <==>
                (id in Ids(xs) && id in Ids(ys) && id !in t ==> LastOf(xs, id).fixed == LastOf(ys, id).fixed)
    {
      if id in Ids(xs + ys) { LastOfAppend(xs, ys, id); }
    }
    if forall id :: id in Ids(xs) && id in Ids(ys) && id !in t ==> LastOf(xs, id).fixed == LastOf(ys, id).fixed {
      forall id | id in whole ensures parts[id] == whole[id] {
        assert parts[id].mutable == whole[id].mutable && parts[id].fixed == whole[id].fixed;
      }
    } else {
      var id :| id in Ids(xs) && id in Ids(ys) && id !in t && LastOf(xs, id).fixed != LastOf(ys, id).fixed;
      assert id in whole && parts[id].fixed != whole[id].fixed;
    }
  }

  /** Chunks of one deduplicated list name nothing twice, so cutting it anywhere changes nothing. */
  lemma ChunksAreInvisible<F, M>(t: Table<F, M>, rows: seq<Item<F, M>>, k: nat)
    requires DistinctIds(rows) && k <= |rows|
    ensures Written(Written(t, rows[..k]), rows[k..]) == Written(t, rows)
  {
    WritingInPartsIff(t, rows[..k], rows[k..]);
    assert rows[..k] + rows[k..] == rows;
  }

  // ------------------------------------------------------- a list deduplicated

  /** `{item.id: item for item in items}.values()`. */
  method Unique<F, M>(items: seq<Item<F, M>>) returns (rows: seq<Item<F, M>>)
    ensures DistinctIds(rows) && Ids(rows) == Ids(items)
    ensures forall row :: row in rows ==> row.id in Ids(items) && row == LastOf(items, row.id)
  {
    var order: seq<string>, unique: map<string, Item<F, M>> := [], map[];
    for k := 0 to |items|
      invariant unique.Keys == Ids(items[..k])
      invariant forall id :: id in order <==> id in unique
      invariant forall i, j :: 0 <= i < j < |order| ==> order[i] != order[j]
      invariant forall id :: id in unique ==> unique[id] == LastOf(items[..k], id)
    {
      var item := items[k];
      assert items[..k + 1] == items[..k] + [item];
      IdsOfAppend(items[..k], [item]);
      forall id | id in Ids(items[..k + 1])
        ensures LastOf(items[..k + 1], id) == if id == item.id then item else LastOf(items[..k], id)
      {
        LastOfAppend(items[..k], [item], id);
      }
      if item.id !in unique { order := order + [item.id]; }
      unique := unique[item.id := item];
    }
    assert items[..|items|] == items;
    rows := [];
    for k := 0 to |order|
      invariant |rows| == k
      invariant forall j :: 0 <= j < k ==> rows[j] == unique[order[j]]
    {
      rows := rows + [unique[order[k]]];
    }
    assert forall j :: 0 <= j < |rows| ==> rows[j].id == order[j];
    assert Ids(rows) == Ids(items) by {
      forall id | id in Ids(items) ensures id in Ids(rows) {
        var j :| 0 <= j < |order| && order[j] == id;
        assert rows[j].id == id;
      }
    }
  }

  /** A deduplicated list writes what the whole list would. */
  lemma UniqueWritesTheSame<F, M>(t: Table<F, M>, items: seq<Item<F, M>>, rows: seq<Item<F, M>>)
    requires DistinctIds(rows) && Ids(rows) == Ids(items)
    requires forall row :: row in rows ==> row.id in Ids(items) && row == LastOf(items, row.id)
    ensures Written(t, rows) == Written(t, items)
  {
    forall id | id in Ids(rows) ensures LastOf(rows, id) == LastOf(items, id) {
      assert LastOf(rows, id) in rows;
    }
  }

  /** The chunks of `rows`, each one statement; `None` if the database refuses any of them. */
  method WriteChunks<F, M>(t: Table<F, M>, rows: seq<Item<F, M>>, allowed: M -> bool)
    returns (written: Option<Table<F, M>>)
    requires DistinctIds(rows)
    ensures written.Some? <==> forall k :: 0 <= k < |rows| ==> allowed(rows[k].mutable)
    ensures written.Some? ==> written.value == Written(t, rows)
  {
    hide Written, UpsertAll, Ids, DistinctIds;
    var table, start := t, 0;
    NothingWritten(t, rows[..0]);
    while start < |rows|
      invariant 0 <= start <= |rows|
      invariant table == Written(t, rows[..start])
      invariant forall k :: 0 <= k < start ==> allowed(rows[k].mutable)
    {
      var end := if start + BATCH_SIZE <= |rows| then start + BATCH_SIZE else |rows|;
      var batch := rows[start..end];
      var outcome := Statement(table, batch, allowed);
      ChunkIsOneStatement(t, rows, start, end);
      assert forall k :: start <= k < end ==> rows[k] == batch[k - start];
      if outcome.None? {
        assert exists k :: 0 <= k < |batch| && !allowed(batch[k].mutable);
        return None;
      }
      table, start := outcome.value, end;
    }
    assert rows[..start] == rows;
    written := Some(table);
  }

  lemma NothingWritten<F, M>(t: Table<F, M>, items: seq<Item<F, M>>)
    requires items == []
    ensures Written(t, items) == t
  {
  }

  /** A chunk of a deduplicated list is accepted as one statement, and takes the table one chunk further. */
  lemma ChunkIsOneStatement<F, M>(t: Table<F, M>, rows: seq<Item<F, M>>, start: nat, end: nat)
    requires DistinctIds(rows) && start <= end <= |rows|
    ensures DistinctIds(rows[start..end])
    ensures UpsertAll(Written(t, rows[..start]), rows[start..end]) == Written(t, rows[..end])
  {
    assert DistinctIds(rows[start..end]) && DistinctIds(rows[..end]);
    hide Written, UpsertAll, Ids, DistinctIds;
    UpsertingIsWriting(Written(t, rows[..start]), rows[start..end]);
    ChunksAreInvisible(t, rows[..end], start);
    assert rows[..end][..start] == rows[..start] && rows[..end][start..] == rows[start..end];
  }

  // ------------------------------------------------------- against one by one

  /** Upserting a raw list row by row takes what is fixed from the first and what moves from the last. */
  lemma {:induction false} OneByOne<F, M>(t: Table<F, M>, items: seq<Item<F, M>>)
    ensures var table := UpsertAll(t, items);
            && table.Keys == t.Keys + Ids(items)
            && forall id :: id in table ==>
                 table[id] == Row(if id in t then t[id].fixed else FirstOf(items, id).fixed,
                                  if id in Ids(items) then LastOf(items, id).mutable else t[id].mutable)
    decreases |items|
  {
    if items != [] {
      var n := |items| - 1;
      var front, item := items[..n], items[n];
      OneByOne(t, front);
      assert items == front + [item];
      IdsOfAppend(front, [item]);
      assert [item][0].id in Ids([item]);
      forall id | id in Ids(items)
        ensures LastOf(items, id) == if id == item.id then item else LastOf(front, id)
        ensures id in Ids(front) ==> FirstOf(items, id) == FirstOf(front, id)
        ensures id !in Ids(front) ==> FirstOf(items, id) == item
      {
        LastOfAppend(front, [item], id);
        if id in Ids(front) { FirstOfAppend(front, item, id); }
      }
      hide FirstOf, LastOf;
    }
  }

  /**
   Deduplicating a batch before writing it is the same as upserting it row by row exactly when no
   identity that is new to the table comes twice with different fixed columns.
   */
  lemma BatchIsOneByOneIff<F, M>(t: Table<F, M>, items: seq<Item<F, M>>)
    ensures Written(t, items) == UpsertAll(t, items) <==>
              forall id :: id in Ids(items) && id !in t ==> FirstOf(items, id).fixed == LastOf(items, id).fixed
  {
    OneByOne(t, items);
    var batch, single := Written(t, items), UpsertAll(t, items);
    if forall id :: id in Ids(items) && id !in t ==> FirstOf(items, id).fixed == LastOf(items, id).fixed {
      assert forall id :: id in batch ==> batch[id] == single[id];
    } else {
      var id :| id in Ids(items) && id !in t && FirstOf(items, id).fixed != LastOf(items, id).fixed;
      assert batch[id] != single[id];
    }
    hide FirstOf, LastOf, UpsertAll;
  }

  // --------------------------------------------------------- histories of writes

  /** A table after a history of writes. */
  function After<F, M>(t: Table<F, M>, writes: seq<seq<Item<F, M>>>): Table<F, M>
  {
    if writes == [] then t else Written(After(t, writes[..|writes| - 1]), writes[|writes| - 1])
  }

  function Mentioned<F, M>(writes: seq<seq<Item<F, M>>>): set<string>
  {
    set k, id | 0 <= k < |writes| && id in Ids(writes[k]) :: id
  }

  lemma MentionedOfAppend<F, M>(writes: seq<seq<Item<F, M>>>)
    requires writes != []
    ensures var n := |writes| - 1; Mentioned(writes) == Mentioned(writes[..n]) + Ids(writes[n])
  {
    var n := |writes| - 1;
    forall id | id in Mentioned(writes) ensures id in Mentioned(writes[..n]) + Ids(writes[n]) {
      var k :| 0 <= k < |writes| && id in Ids(writes[k]);
      assert k < n ==> writes[..n][k] == writes[k];
    }
    forall id | id in Mentioned(writes[..n]) ensures id in Mentioned(writes) {
      var k :| 0 <= k < n && id in Ids(writes[..n][k]);
      assert id in Ids(writes[k]);
    }
  }

  /** Which write first brought an identity. */
  function FirstMention<F, M>(writes: seq<seq<Item<F, M>>>, id: string): (k: nat)
    requires id in Mentioned(writes)
    ensures k < |writes| && id in Ids(writes[k]) && forall j :: 0 <= j < k ==> id !in Ids(writes[j])
  {
    var n := |writes| - 1;
    MentionedOfAppend(writes);
    if id in Mentioned(writes[..n]) then
      var k := FirstMention(writes[..n], id);
      assert forall j :: 0 <= j < k ==> writes[..n][j] == writes[j];
      k
    else
      assert forall j :: 0 <= j < n && id in Ids(writes[j]) ==> id in Ids(writes[..n][j]);
      n
  }

  /** Which write last brought an identity. */
  function LastMention<F, M>(writes: seq<seq<Item<F, M>>>, id: string): (k: nat)
    requires id in Mentioned(writes)
    ensures k < |writes| && id in Ids(writes[k]) && forall j :: k < j < |writes| ==> id !in Ids(writes[j])
  {
    var n := |writes| - 1;
    MentionedOfAppend(writes);
    if id in Ids(writes[n]) then n
    else
      var k := LastMention(writes[..n], id);
      assert forall j :: k < j < n ==> writes[..n][j] == writes[j];
      k
  }

  /** After any history the moving columns are the last write's, and the fixed ones the first's for good. */
  lemma {:induction false} HistoryOfARow<F, M>(t: Table<F, M>, writes: seq<seq<Item<F, M>>>, id: string)
    ensures id in After(t, writes) <==> id in t || id in Mentioned(writes)
    ensures id in After(t, writes) ==>
              After(t, writes)[id] ==
                Row(if id in t then t[id].fixed else LastOf(writes[FirstMention(writes, id)], id).fixed,
                    if id in Mentioned(writes) then LastOf(writes[LastMention(writes, id)], id).mutable
                    else t[id].mutable)
    decreases |writes|
  {
    if writes != [] {
      var n := |writes| - 1;
      HistoryOfARow(t, writes[..n], id);
      MentionedOfAppend(writes);
      hide LastOf;
      if id in Mentioned(writes[..n]) {
        assert FirstMention(writes, id) == FirstMention(writes[..n], id);
        assert writes[..n][FirstMention(writes[..n], id)] == writes[FirstMention(writes, id)];
        assert id !in Ids(writes[n]) ==> writes[..n][LastMention(writes[..n], id)] == writes[LastMention(writes, id)];
      }
    }
  }

  /** Every payload of the history is what the source holds for its identity. */
  ghost predicate DrawnFrom<F(!new), M(!new)>(source: map<string, Item<F, M>>, writes: seq<seq<Item<F, M>>>)
  {
    forall k, item :: 0 <= k < |writes| && item in writes[k] ==> item.id in source && source[item.id] == item
  }

  /**
   Interruptions and repeats are invisible: over a source that stands still, two histories that
   between them bring the same identities leave the same table, however they were cut and repeated.
   */
  lemma ReplayIsInvisible<F(!new), M(!new)>(t: Table<F, M>, source: map<string, Item<F, M>>,
                                one: seq<seq<Item<F, M>>>, other: seq<seq<Item<F, M>>>)
    requires DrawnFrom(source, one) && DrawnFrom(source, other)
    ensures After(t, one) == After(t, other) <==>
              (&& Mentioned(one) - t.Keys == Mentioned(other) - t.Keys
               && forall id :: id in Mentioned(one) + Mentioned(other) &&
                               !(id in Mentioned(one) && id in Mentioned(other)) ==>
                    id in t && id in source && t[id].mutable == source[id].mutable)
  {
    hide After, Mentioned, DrawnFrom;
    RowsFromSource(t, source, one);
    RowsFromSource(t, source, other);
    var a, b := After(t, one), After(t, other);
    if a == b {
      forall id | id in Mentioned(one) + Mentioned(other) && !(id in Mentioned(one) && id in Mentioned(other))
        ensures id in t && id in source && t[id].mutable == source[id].mutable
      {
        assert id in a && id in b && a[id] == b[id];
      }
      assert Mentioned(one) - t.Keys == a.Keys - t.Keys;
      assert Mentioned(other) - t.Keys == b.Keys - t.Keys;
    }
    if Mentioned(one) - t.Keys == Mentioned(other) - t.Keys &&
       forall id :: id in Mentioned(one) + Mentioned(other) && !(id in Mentioned(one) && id in Mentioned(other)) ==>
         id in t && id in source && t[id].mutable == source[id].mutable {
      forall id ensures id in a <==> id in b {
        assert id in Mentioned(one) - t.Keys <==> id in Mentioned(other) - t.Keys;
      }
      assert a.Keys == b.Keys;
      forall id | id in a ensures a[id] == b[id] {
        if !(id in Mentioned(one) && id in Mentioned(other)) && id in Mentioned(one) + Mentioned(other) {
          assert id in t && t[id].mutable == source[id].mutable;
        }
      }
    }
  }

  lemma RowFromSource<F(!new), M(!new)>(t: Table<F, M>, source: map<string, Item<F, M>>, writes: seq<seq<Item<F, M>>>,
                                        id: string)
    requires DrawnFrom(source, writes)
    ensures id in After(t, writes) <==> id in t || id in Mentioned(writes)
    ensures id in Mentioned(writes) ==>
                id in source && After(t, writes)[id] == Row(if id in t then t[id].fixed else source[id].fixed,
                                                            source[id].mutable)
    ensures id in t && id !in Mentioned(writes) ==> After(t, writes)[id] == t[id]
  {
    HistoryOfARow(t, writes, id);
    hide After;
    if id in Mentioned(writes) {
      var first, last := FirstMention(writes, id), LastMention(writes, id);
      assert LastOf(writes[first], id) in writes[first] && LastOf(writes[last], id) in writes[last];
    }
  }

  /** What any history over a source that stands still leaves, row by row. */
  lemma RowsFromSource<F(!new), M(!new)>(t: Table<F, M>, source: map<string, Item<F, M>>, writes: seq<seq<Item<F, M>>>)
    requires DrawnFrom(source, writes)
    ensures After(t, writes).Keys == t.Keys + Mentioned(writes) && Mentioned(writes) <= source.Keys
    ensures forall id :: id in Mentioned(writes) ==>
              After(t, writes)[id] == Row(if id in t then t[id].fixed else source[id].fixed, source[id].mutable)
    ensures forall id :: id in t && id !in Mentioned(writes) ==> After(t, writes)[id] == t[id]
  {
    hide After, Mentioned, DrawnFrom;
    forall id
      ensures id in After(t, writes) <==> id in t || id in Mentioned(writes)
      ensures id in Mentioned(writes) ==>
                id in source && After(t, writes)[id] == Row(if id in t then t[id].fixed else source[id].fixed,
                                                            source[id].mutable)
      ensures id in t && id !in Mentioned(writes) ==> After(t, writes)[id] == t[id]
    {
      RowFromSource(t, source, writes, id);
    }
  }

  /** In particular any string of partial passes that ends in a complete one is that one pass. */
  lemma PartialPassesThenComplete<F(!new), M(!new)>(t: Table<F, M>, source: map<string, Item<F, M>>,
                                        partial: seq<seq<Item<F, M>>>, complete: seq<Item<F, M>>)
    requires DrawnFrom(source, partial) && DrawnFrom(source, [complete]) && Ids(complete) == source.Keys
    ensures After(t, partial + [complete]) == After(t, [complete])
  {
    var writes := partial + [complete];
    MentionedOfAppend(writes);
    MentionedOfAppend([complete]);
    assert writes[..|writes| - 1] == partial && [complete][..0] == [];
    forall k: int, item: Item<F, M> | 0 <= k < |writes| && item in writes[k]
      ensures item.id in source && source[item.id] == item
    {
      if k < |partial| { assert writes[k] == partial[k]; } else { assert item in [complete][0]; }
    }
    forall id | id in Mentioned(partial) ensures id in source {
      var k :| 0 <= k < |partial| && id in Ids(partial[k]);
      var j :| 0 <= j < |partial[k]| && partial[k][j].id == id;
      assert partial[k][j] in partial[k];
    }
    assert Mentioned(writes) == source.Keys == Mentioned([complete]);
    ReplayIsInvisible(t, source, writes, [complete]);
    hide After;
  }
}
