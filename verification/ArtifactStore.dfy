/**
 The only writer of artifacts and people: both batches in one transaction, people first.
 */
module ArtifactStores {
  import opened Options
  import opened Upserts

  datatype PersonFixed = PersonFixed(tenant: string, platform: string, externalId: string, email: string,
                                     metadata: string)

  datatype PersonMutable = PersonMutable(handle: string, displayName: string, avatarUrl: string, isBot: bool)

  datatype ArtifactFixed = ArtifactFixed(tenant: string, kind: string, sourceId: string, platform: string,
                                         nativeId: string, occurredAt: int)

  datatype ArtifactMutable = ArtifactMutable(actorId: Option<string>, url: string, title: string, body: string,
                                             updatedAtSource: Option<int>, state: string, outcome: string,
                                             links: string, details: string, provenance: string, metadata: string)

  type Person = Item<PersonFixed, PersonMutable>
  type Artifact = Item<ArtifactFixed, ArtifactMutable>

  datatype WriteResult = WriteResult(artifactsWritten: nat, peopleWritten: nat)

  /** The foreign key from an artifact to the person who acted. */
  predicate ActorIn(m: ArtifactMutable, people: set<string>)
  {
    m.actorId.Some? ==> m.actorId.value in people
  }

  /** Every row the batch would write names an actor that is stored, or about to be. */
  predicate ActorsResolve(artifacts: seq<Artifact>, people: set<string>)
  {
    forall id :: id in Ids(artifacts) ==> ActorIn(LastOf(artifacts, id).mutable, people)
  }

  class ArtifactStore {
    var artifacts: Table<ArtifactFixed, ArtifactMutable>
    var people: Table<PersonFixed, PersonMutable>

    constructor ()
      ensures artifacts == map[] && people == map[]
    {
      artifacts, people := map[], map[];
    }

    /** `write`; `None` is the statement the database refused, with the whole transaction undone. */
    method Write(batch: seq<Artifact>, crowd: seq<Person>) returns (result: Option<WriteResult>)
      modifies this
      ensures result.Some? <==> ActorsResolve(batch, old(people).Keys + Ids(crowd))
      ensures result.Some? ==>
                && people == Written(old(people), crowd)
                && artifacts == Written(old(artifacts), batch)
                && result.value == WriteResult(|Ids(batch)|, |Ids(crowd)|)
      ensures result.None? ==> people == old(people) && artifacts == old(artifacts)
    {
      hide Written, LastOf, Ids, DistinctIds, ActorIn, ActorsResolve;
      if batch == [] && crowd == [] {
        WritingNothing(people);
        WritingNothing(artifacts);
        NothingUnresolved(people.Keys);
        return Some(WriteResult(0, 0));
      }
      var uniquePeople := Unique(crowd);
      var settled := WriteChunks(people, uniquePeople, _ => true);
      UniqueWritesTheSame(people, crowd, uniquePeople);
      var known := settled.value.Keys;
      WrittenKeys(people, crowd);

      var unique := Unique(batch);
      var written := WriteChunks(artifacts, unique, (m: ArtifactMutable) => ActorIn(m, known));
      UniqueWritesTheSame(artifacts, batch, unique);
      AllowedIsResolved(batch, unique, known);
      if written.None? {
        return None;
      }
      CountOfIds(unique);
      CountOfIds(uniquePeople);
      people, artifacts := settled.value, written.value;
      result := Some(WriteResult(|unique|, |uniquePeople|));
    }
  }

  lemma WrittenKeys<F, M>(t: Table<F, M>, items: seq<Item<F, M>>)
    ensures Written(t, items).Keys == t.Keys + Ids(items)
  {
  }

  lemma NothingUnresolved(known: set<string>)
    ensures ActorsResolve([], known)
  {
  }

  lemma WritingNothing<F, M>(t: Table<F, M>)
    ensures Written(t, []) == t && Ids<F, M>([]) == {}
  {
  }

  lemma AllowedIsResolved(batch: seq<Artifact>, unique: seq<Artifact>, known: set<string>)
    requires Ids(unique) == Ids(batch)
    requires forall row :: row in unique ==> row.id in Ids(batch) && row == LastOf(batch, row.id)
    ensures (forall k :: 0 <= k < |unique| ==> ActorIn(unique[k].mutable, known)) <==> ActorsResolve(batch, known)
  {
    forall id | id in Ids(batch) ensures exists k :: 0 <= k < |unique| && unique[k] == LastOf(batch, id) {
      var k :| 0 <= k < |unique| && unique[k].id == id;
      assert unique[k] in unique;
    }
    forall k | 0 <= k < |unique| ensures unique[k].id in Ids(batch) && unique[k] == LastOf(batch, unique[k].id) {
      assert unique[k] in unique;
    }
    hide LastOf;
  }

  lemma {:induction false} CountOfIds<F, M>(rows: seq<Item<F, M>>)
    ensures |Ids(rows)| <= |rows| && (|Ids(rows)| == |rows| <==> DistinctIds(rows))
    decreases |rows|
  {
    if rows != [] {
      var n := |rows| - 1;
      var front, last := rows[..n], rows[n];
      CountOfIds(front);
      assert rows == front + [last];
      IdsOfAppend(front, [last]);
      assert Ids([last]) == {last.id} by { assert [last][0].id in Ids([last]); }
      if last.id in Ids(front) {
        var k :| 0 <= k < n && front[k].id == last.id;
        assert rows[k].id == rows[n].id && Ids(rows) == Ids(front);
      } else {
        assert DistinctIds(rows) <==> DistinctIds(front);
      }
    }
  }

  /** Why batches are deduplicated: one statement with a raw batch is refused exactly if it repeats an identity. */
  lemma RawBatchIsRefusedIff<F, M>(t: Table<F, M>, batch: seq<Item<F, M>>, allowed: M -> bool)
    requires forall item :: item in batch ==> allowed(item.mutable)
    ensures Statement(t, batch, allowed).None? <==> |Ids(batch)| < |batch|
  {
    CountOfIds(batch);
    hide Ids, DistinctIds, UpsertAll;
  }
}
