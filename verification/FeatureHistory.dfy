/**
 Decisions survive sorting, guesses never pass for decisions, and a second pass has nothing to add.
 */
module FeatureHistory {
  import opened Options
  import opened FeatureMatching
  import opened FeatureSorting

  // ------------------------------------------------------------ what a pass adds

  predicate DistinctFeatures(fs: seq<Feature>) { forall i, j :: 0 <= i < j < |fs| ==> fs[i].id != fs[j].id }

  predicate DistinctArtifacts(arts: seq<Artifact>) { forall i, j :: 0 <= i < j < |arts| ==> arts[i].id != arts[j].id }

  function FeatureById(fs: seq<Feature>, id: string): (f: Option<Feature>)
    ensures f.Some? <==> exists k :: 0 <= k < |fs| && fs[k].id == id
    ensures f.Some? ==> f.value in fs && f.value.id == id
  {
    if fs == [] then None
    else if fs[|fs| - 1].id == id then Some(fs[|fs| - 1])
    else
      var f := FeatureById(fs[..|fs| - 1], id);
      assert forall k :: 0 <= k < |fs| - 1 ==> fs[..|fs| - 1][k] == fs[k];
      f
  }

  function ArtifactById(arts: seq<Artifact>, id: string): (a: Option<Artifact>)
    ensures a.Some? <==> exists k :: 0 <= k < |arts| && arts[k].id == id
    ensures a.Some? ==> a.value in arts && a.value.id == id
  {
    if arts == [] then None
    else if arts[|arts| - 1].id == id then Some(arts[|arts| - 1])
    else
      var a := ArtifactById(arts[..|arts| - 1], id);
      assert forall k :: 0 <= k < |arts| - 1 ==> arts[..|arts| - 1][k] == arts[k];
      a
  }

  /** What a pass proposes for a pair: a guess, if the pair is new and both sides are in the project. */
  function Proposed(fs: seq<Feature>, arts: seq<Artifact>, existing: map<Key, Link>, key: Key): Option<Link>
  {
    var f, a := FeatureById(fs, key.0), ArtifactById(arts, key.1);
    if key in existing || f.None? || a.None? then None else Guess(f.value, a.value)
  }

  lemma {:induction false} FeaturesPropose(t: Tally, fs: seq<Feature>, a: Artifact, existing: map<Key, Link>, key: Key)
    requires DistinctFeatures(fs)
    ensures var f := FeatureById(fs, key.0);
            Lookup(VisitFeatures(t, fs, a, existing).guesses, key) ==
              if key.1 == a.id && key !in existing && f.Some? && Guess(f.value, a).Some? then Guess(f.value, a)
              else Lookup(t.guesses, key)
    decreases |fs|
  {
    if fs != [] {
      var front, last := fs[..|fs| - 1], fs[|fs| - 1];
      FeaturesPropose(t, front, a, existing, key);
      assert FeatureById(front, last.id).None?;
      hide Match;
    }
  }

  /** A pass adds exactly its proposals. */
  lemma {:induction false} PassAddsItsProposals(fs: seq<Feature>, arts: seq<Artifact>, existing: map<Key, Link>,
                                                key: Key)
    requires DistinctFeatures(fs) && DistinctArtifacts(arts)
    ensures Lookup(VisitAll(fs, arts, existing).guesses, key) == Proposed(fs, arts, existing, key)
    decreases |arts|
  {
    if arts != [] {
      var front, last := arts[..|arts| - 1], arts[|arts| - 1];
      PassAddsItsProposals(fs, front, existing, key);
      FeaturesPropose(VisitAll(fs, front, existing), fs, last, existing, key);
      assert ArtifactById(front, last.id).None?;
      hide Guess, VisitFeatures;
    }
  }

  lemma {:induction false} FeaturesCountTheirLinks(t: Tally, fs: seq<Feature>, a: Artifact, existing: map<Key, Link>)
    requires DistinctFeatures(fs) && t.report.linked == |t.guesses|
    requires forall k :: 0 <= k < |fs| ==> (fs[k].id, a.id) !in t.guesses
    ensures var t' := VisitFeatures(t, fs, a, existing); t'.report.linked == |t'.guesses|
    decreases |fs|
  {
    if fs != [] {
      var front, last := fs[..|fs| - 1], fs[|fs| - 1];
      FeaturesCountTheirLinks(t, front, a, existing);
      FeaturesPropose(t, front, a, existing, (last.id, a.id));
      assert FeatureById(front, last.id).None?;
      hide Guess;
    }
  }

  /** The `linked` of a report is the number of rows the pass adds. */
  lemma {:induction false} LinkedCountsTheRows(fs: seq<Feature>, arts: seq<Artifact>, existing: map<Key, Link>)
    requires DistinctFeatures(fs) && DistinctArtifacts(arts)
    ensures VisitAll(fs, arts, existing).report.linked == |VisitAll(fs, arts, existing).guesses|
    decreases |arts|
  {
    if arts != [] {
      var front, last := arts[..|arts| - 1], arts[|arts| - 1];
      var t := VisitAll(fs, front, existing);
      LinkedCountsTheRows(fs, front, existing);
      forall k | 0 <= k < |fs| ensures (fs[k].id, last.id) !in t.guesses {
        PassAddsItsProposals(fs, front, existing, (fs[k].id, last.id));
        assert ArtifactById(front, last.id).None?;
      }
      hide Guess;
      FeaturesCountTheirLinks(t, fs, last, existing);
    }
  }

  /** The linked pairs of these features and artifacts: those somebody decided, or those nobody did. */
  function LinkedPairs(fs: seq<Feature>, arts: seq<Artifact>, existing: map<Key, Link>, decided: bool): set<Key>
  {
    set key | key in existing && decided == (existing[key].membership in {Confirmed, Excluded}) &&
              (exists f :: f in fs && f.id == key.0 && f.terms != []) && (exists a :: a in arts && a.id == key.1)
  }

  lemma PairsOfOneMoreFeature(front: seq<Feature>, last: Feature, a: Artifact, existing: map<Key, Link>, decided: bool)
    requires DistinctFeatures(front + [last])
    ensures var key, before := (last.id, a.id), LinkedPairs(front, [a], existing, decided);
            && key !in before
            && LinkedPairs(front + [last], [a], existing, decided) == before +
                 if last.terms != [] && key in existing &&
                    decided == (existing[key].membership in {Confirmed, Excluded}) then {key} else {}
  {
    var key, fs := (last.id, a.id), front + [last];
    forall f | f in front ensures f.id != last.id {
      var k :| 0 <= k < |front| && front[k] == f;
      assert fs[k] == f && fs[|front|] == last;
    }
    assert a in [a] && last in fs && forall f :: f in front ==> f in fs;
  }

  lemma PairsOfOneMoreArtifact(fs: seq<Feature>, front: seq<Artifact>, last: Artifact, existing: map<Key, Link>,
                               decided: bool)
    requires DistinctArtifacts(front + [last])
    ensures var before, more := LinkedPairs(fs, front, existing, decided), LinkedPairs(fs, [last], existing, decided);
            before !! more && LinkedPairs(fs, front + [last], existing, decided) == before + more
  {
    var arts := front + [last];
    forall a | a in front ensures a.id != last.id {
      var k :| 0 <= k < |front| && front[k] == a;
      assert arts[k] == a && arts[|front|] == last;
    }
    assert last in arts && last in [last] && forall a :: a in front ==> a in arts;
  }

  lemma NoPairs(fs: seq<Feature>, arts: seq<Artifact>, existing: map<Key, Link>, decided: bool)
    requires fs == [] || arts == []
    ensures LinkedPairs(fs, arts, existing, decided) == {}
  {
  }

  lemma VisitCounts(t: Tally, f: Feature, a: Artifact, existing: map<Key, Link>)
    ensures var r, r', key := t.report, Visit(t, f, a, existing).report, (f.id, a.id);
            var linked := f.terms != [] && key in existing;
            && r'.protected == r.protected +
                 (if linked && existing[key].membership in {Confirmed, Excluded} then 1 else 0)
            && r'.alreadyLinked == r.alreadyLinked +
                 (if linked && existing[key].membership !in {Confirmed, Excluded} then 1 else 0)
  {
    hide Guess;
  }

  lemma {:induction false} FeaturesCountTheirPairs(t: Tally, fs: seq<Feature>, a: Artifact, existing: map<Key, Link>)
    requires DistinctFeatures(fs)
    ensures var r, r' := t.report, VisitFeatures(t, fs, a, existing).report;
            && r'.protected == r.protected + |LinkedPairs(fs, [a], existing, true)|
            && r'.alreadyLinked == r.alreadyLinked + |LinkedPairs(fs, [a], existing, false)|
    decreases |fs|
  {
    hide LinkedPairs, Visit;
    if fs == [] {
      NoPairs(fs, [a], existing, true);
      NoPairs(fs, [a], existing, false);
    } else {
      var front, last := fs[..|fs| - 1], fs[|fs| - 1];
      assert DistinctFeatures(front) && front + [last] == fs;
      hide DistinctFeatures;
      FeaturesCountTheirPairs(t, front, a, existing);
      VisitCounts(VisitFeatures(t, front, a, existing), last, a, existing);
      PairsOfOneMoreFeature(front, last, a, existing, true);
      PairsOfOneMoreFeature(front, last, a, existing, false);
    }
  }

  /**
   The other counters of a report: `protected` is the number of pairs somebody decided about, `already_linked`
   that of the pairs linked otherwise, features without terms apart.
   */
  lemma {:induction false} ReportCountsThePairs(fs: seq<Feature>, arts: seq<Artifact>, existing: map<Key, Link>)
    requires DistinctFeatures(fs) && DistinctArtifacts(arts)
    ensures var r := VisitAll(fs, arts, existing).report;
            && r.protected == |LinkedPairs(fs, arts, existing, true)|
            && r.alreadyLinked == |LinkedPairs(fs, arts, existing, false)|
    decreases |arts|
  {
    hide LinkedPairs, VisitFeatures;
    if arts == [] {
      NoPairs(fs, arts, existing, true);
      NoPairs(fs, arts, existing, false);
    } else {
      var front, last := arts[..|arts| - 1], arts[|arts| - 1];
      ReportCountsThePairs(fs, front, existing);
      FeaturesCountTheirPairs(VisitAll(fs, front, existing), fs, last, existing);
      assert front + [last] == arts;
      PairsOfOneMoreArtifact(fs, front, last, existing, true);
      PairsOfOneMoreArtifact(fs, front, last, existing, false);
    }
  }

  // ------------------------------------------------------------ a second pass

  /** A table in which every pair of the project that could be guessed has been. */
  ghost predicate Exhausted(fs: seq<Feature>, a: Artifact, existing: map<Key, Link>, linked: map<Key, Link>)
  {
    forall k {:trigger fs[k]} :: 0 <= k < |fs| ==>
      var key := (fs[k].id, a.id);
      Lookup(linked, key) == if key in existing then Some(existing[key]) else Guess(fs[k], a)
  }

  /** The counters of a pass over the links an earlier pass left, pair by pair. */
  lemma {:induction false} SecondVisitCounts(t: Tally, u: Tally, fs: seq<Feature>, a: Artifact,
                                             existing: map<Key, Link>, linked: map<Key, Link>)
    requires Exhausted(fs, a, existing, linked)
    requires u.report == SortReport(0, t.report.alreadyLinked + t.report.linked, t.report.protected, t.report.scanned)
    ensures var t', u' := VisitFeatures(t, fs, a, existing), VisitFeatures(u, fs, a, linked);
            && u'.report == SortReport(0, t'.report.alreadyLinked + t'.report.linked, t'.report.protected,
                                       t'.report.scanned)
            && u'.guesses == u.guesses
    decreases |fs|
  {
    if fs != [] {
      var front, last := fs[..|fs| - 1], fs[|fs| - 1];
      assert Exhausted(front, a, existing, linked) by {
        forall k | 0 <= k < |front|
          ensures var key := (front[k].id, a.id);
                  Lookup(linked, key) == if key in existing then Some(existing[key]) else Guess(front[k], a)
        {
          assert front[k] == fs[k];
        }
      }
      SecondVisitCounts(t, u, front, a, existing, linked);
      GuessIsNoDecision(last, a);
      assert fs[|fs| - 1] == last;
      hide Guess;
    }
  }

  lemma {:induction false} SecondPassCounts(fs: seq<Feature>, arts: seq<Artifact>,
                                            existing: map<Key, Link>, linked: map<Key, Link>)
    requires forall k :: 0 <= k < |arts| ==> Exhausted(fs, arts[k], existing, linked)
    ensures var t, u := VisitAll(fs, arts, existing), VisitAll(fs, arts, linked);
            && u.report == SortReport(0, t.report.alreadyLinked + t.report.linked, t.report.protected, t.report.scanned)
            && u.guesses == map[]
    decreases |arts|
  {
    if arts != [] {
      var front, last := arts[..|arts| - 1], arts[|arts| - 1];
      hide Exhausted;
      SecondPassCounts(fs, front, existing, linked);
      SecondVisitCounts(VisitAll(fs, front, existing), VisitAll(fs, front, linked), fs, last, existing, linked);
      hide VisitFeatures;
    }
  }

  /** The features of a project are those declared in it, and no others. */
  lemma {:induction false} FeaturesOfTheProject(fs: seq<Feature>, project: string)
    ensures forall f :: f in FeaturesOf(fs, project) <==> f in fs && f.project == project
    ensures DistinctFeatures(fs) ==> DistinctFeatures(FeaturesOf(fs, project))
  {
    if fs != [] {
      FeaturesOfTheProject(fs[1..], project);
      var rest := FeaturesOf(fs[1..], project);
      assert fs == [fs[0]] + fs[1..];
      forall k | 0 <= k < |rest| && DistinctFeatures(fs) ensures rest[k].id != fs[0].id {
        assert rest[k] in fs[1..];
        var j :| 0 <= j < |fs[1..]| && fs[1..][j] == rest[k];
        assert fs[j + 1] == rest[k];
      }
    }
  }

  lemma {:induction false} ArtifactsOfTheProject(arts: seq<Artifact>, project: string)
    ensures forall a :: a in ArtifactsOf(arts, project) <==> a in arts && a.project == project
    ensures DistinctArtifacts(arts) ==> DistinctArtifacts(ArtifactsOf(arts, project))
  {
    if arts != [] {
      ArtifactsOfTheProject(arts[1..], project);
      var rest := ArtifactsOf(arts[1..], project);
      assert arts == [arts[0]] + arts[1..];
      forall k | 0 <= k < |rest| && DistinctArtifacts(arts) ensures rest[k].id != arts[0].id {
        assert rest[k] in arts[1..];
        var j :| 0 <= j < |arts[1..]| && arts[1..][j] == rest[k];
        assert arts[j + 1] == rest[k];
      }
    }
  }

  /** The ids of the tables are primary keys. */
  predicate Keyed(w: World) { DistinctFeatures(w.features) && DistinctArtifacts(w.artifacts) }

  /** There is something to link the artifact by: one of the feature's terms occurs in it. */
  ghost predicate HasEvidence(f: Feature, a: Artifact)
  {
    Evidence(f.terms, a.branches) || Evidence(f.terms, a.titles) || Evidence(f.terms, a.paths)
  }

  lemma GuessIffEvidence(f: Feature, a: Artifact)
    ensures Guess(f, a).Some? <==> HasEvidence(f, a)
  {
    GuessSaysWhatItRestsOn(f, a);
    hide Guess, Evidence;
  }

  /**
   A pass of a project links pairs of that project and no others: a feature declared in it and an artifact
   stored in it get a row exactly if they have none yet and the artifact shows evidence of the feature.
   */
  lemma PassLinksTheProjectsEvidence(w: World, project: string, key: Key)
    requires Keyed(w)
    ensures key in Pass(w, project).guesses <==>
              && key !in w.links
              && exists f, a :: f in w.features && f.project == project && f.id == key.0 &&
                                a in w.artifacts && a.project == project && a.id == key.1 && HasEvidence(f, a)
  {
    var fs, arts := FeaturesOf(w.features, project), ArtifactsOf(w.artifacts, project);
    FeaturesOfTheProject(w.features, project);
    ArtifactsOfTheProject(w.artifacts, project);
    PassAddsItsProposals(fs, arts, w.links, key);
    hide VisitAll, Guess, HasEvidence, FeaturesOf, ArtifactsOf;
    var f0, a0 := FeatureById(fs, key.0), ArtifactById(arts, key.1);
    if f0.Some? && a0.Some? {
      GuessIffEvidence(f0.value, a0.value);
    }
    forall f, a | f in w.features && f.project == project && f.id == key.0 &&
                  a in w.artifacts && a.project == project && a.id == key.1
      ensures f0 == Some(f) && a0 == Some(a)
    {
      assert f in fs && a in arts;
    }
  }

  /** A pass whose two transactions nothing comes between. */
  function Undisturbed(w: World, project: string): World
  {
    Happen(Happen(w, Scan(project)), Insert(|w.scans|))
  }

  /** Undisturbed, a pass inserts every row it proposes. */
  lemma UndisturbedPassInserts(w: World, project: string)
    requires project in w.projects
    ensures Undisturbed(w, project).links == w.links + Pass(w, project).guesses
    ensures Undisturbed(w, project) == w.(links := Undisturbed(w, project).links,
                                          scans := Undisturbed(w, project).scans)
  {
    PassAddsGuesses(FeaturesOf(w.features, project), ArtifactsOf(w.artifacts, project), w.links);
    hide VisitAll;
  }

  /** A second pass with nothing new links nothing, and reports every row of the first as already there. */
  lemma SecondSortLinksNothing(w: World, project: string)
    requires Keyed(w) && project in w.projects
    ensures var w' := Undisturbed(w, project);
            var first, second := Pass(w, project).report, Pass(w', project).report;
            && Undisturbed(w', project).links == w'.links
            && second == SortReport(0, first.alreadyLinked + first.linked, first.protected, first.scanned)
  {
    var fs, arts := FeaturesOf(w.features, project), ArtifactsOf(w.artifacts, project);
    var guesses := VisitAll(fs, arts, w.links).guesses;
    FeaturesOfTheProject(w.features, project);
    ArtifactsOfTheProject(w.artifacts, project);
    UndisturbedPassInserts(w, project);
    UndisturbedPassInserts(Undisturbed(w, project), project);
    forall k | 0 <= k < |arts| ensures Exhausted(fs, arts[k], w.links, w.links + guesses) {
      forall j | 0 <= j < |fs|
        ensures var key := (fs[j].id, arts[k].id);
                Lookup(w.links + guesses, key) == if key in w.links then Some(w.links[key]) else Guess(fs[j], arts[k])
      {
        PairIsProposed(fs, arts, w.links, j, k);
      }
    }
    hide Exhausted, VisitAll, Happen;
    SecondPassCounts(fs, arts, w.links, w.links + guesses);
    assert w.links + guesses + map[] == w.links + guesses;
  }

  lemma PairIsProposed(fs: seq<Feature>, arts: seq<Artifact>, existing: map<Key, Link>, j: nat, k: nat)
    requires DistinctFeatures(fs) && DistinctArtifacts(arts) && j < |fs| && k < |arts|
    ensures var key, guesses := (fs[j].id, arts[k].id), VisitAll(fs, arts, existing).guesses;
            Lookup(existing + guesses, key) == if key in existing then Some(existing[key]) else Guess(fs[j], arts[k])
  {
    var key := (fs[j].id, arts[k].id);
    PassAddsItsProposals(fs, arts, existing, key);
    assert FeatureById(fs, fs[j].id) == Some(fs[j]);
    assert ArtifactById(arts, arts[k].id) == Some(arts[k]);
    hide VisitAll, Guess;
  }

  // ------------------------------------------------------------ decisions survive

  function After(w: World, events: seq<Event>): World
    decreases |events|
  {
    if events == [] then w else After(Happen(w, events[0]), events[1..])
  }

  /** The event settles the pair: a decision about it, by somebody who named rows that exist. */
  predicate Settles(w: World, e: Event, key: Key)
  {
    e.Decide? && (e.feature, e.artifact) == key && HasFeature(w, e.feature) && HasArtifact(w, e.artifact)
  }

  /** The last event of a history that settles a pair. */
  function LastDecision(w: World, events: seq<Event>, key: Key): Option<Event>
    decreases |events|
  {
    if events == [] then None
    else
      var later := LastDecision(Happen(w, events[0]), events[1..], key);
      if later.Some? then later
      else if Settles(w, events[0], key) then Some(events[0])
      else None
  }

  /** The row says what the decision said. */
  predicate Records(l: Link, e: Event)
    requires e.Decide?
  {
    && l.membership == (if e.belongs then Confirmed else Excluded)
    && l.confidence == 1.0 && l.decidedBy == e.who && l.decidedAt == Some(e.when)
  }

  /** Whatever the passes under way have found are guesses. */
  ghost predicate ScansAreGuesses(w: World)
  {
    forall k, key :: 0 <= k < |w.scans| && key in w.scans[k] ==> IsGuess(w.scans[k][key])
  }

  lemma EventKeepsScans(w: World, e: Event)
    requires ScansAreGuesses(w)
    ensures ScansAreGuesses(Happen(w, e))
  {
    if e.Scan? && e.project in w.projects {
      PassAddsGuesses(FeaturesOf(w.features, e.project), ArtifactsOf(w.artifacts, e.project), w.links);
    }
    hide VisitAll, IsGuess, HasFeature, HasArtifact;
    var w' := Happen(w, e);
    forall k, key | 0 <= k < |w'.scans| && key in w'.scans[k] ensures IsGuess(w'.scans[k][key]) {
      if k < |w.scans| && w'.scans[k] == w.scans[k] { assert key in w.scans[k]; }
    }
  }

  /** One event: a decision is recorded; anything else leaves an existing link alone and adds only guesses. */
  lemma EventOnLink(w: World, e: Event, key: Key)
    requires ScansAreGuesses(w)
    ensures var before, after := Lookup(w.links, key), Lookup(Happen(w, e).links, key);
            && (Settles(w, e, key) ==> after.Some? && Records(after.value, e))
            && (!Settles(w, e, key) && before.Some? ==> after == before)
            && (!Settles(w, e, key) && before.None? && after.Some? ==> IsGuess(after.value))
  {
    hide Pass, IsGuess;
  }

  /**
   Over any history of reads, inserts, decisions and arrivals, in any order, a pair's link is its last
   decision once there is one; until then it is what it was, or a guess.
   */
  lemma {:induction false} DecisionsSurvive(w: World, events: seq<Event>, key: Key)
    requires ScansAreGuesses(w)
    ensures var link, last := Lookup(After(w, events).links, key), LastDecision(w, events, key);
            && (last.Some? ==> last.value.Decide? && link.Some? && Records(link.value, last.value))
            && (last.None? && key in w.links ==> link == Some(w.links[key]))
            && (last.None? && key !in w.links && link.Some? ==> IsGuess(link.value))
    decreases |events|
  {
    if events != [] {
      EventOnLink(w, events[0], key);
      EventKeepsScans(w, events[0]);
      hide Happen, IsGuess, HasFeature, HasArtifact, ScansAreGuesses;
      DecisionsSurvive(Happen(w, events[0]), events[1..], key);
    }
  }

  /** A history in which scan `k` is not inserted. */
  predicate LeavesScan(events: seq<Event>, k: nat)
  {
    forall e :: e in events && e.Insert? ==> e.scan != k
  }

  lemma {:induction false} ScanWaits(w: World, events: seq<Event>, k: nat)
    requires k < |w.scans| && LeavesScan(events, k)
    ensures var w' := After(w, events); k < |w'.scans| && w'.scans[k] == w.scans[k]
    decreases |events|
  {
    if events != [] {
      assert events[0] in events;
      hide Pass, HasFeature, HasArtifact;
      ScanWaits(Happen(w, events[0]), events[1..], k);
    }
  }

  /**
   What comes between the two transactions of a pass decides over all its rows together: they are all
   inserted exactly if none of the proposed pairs has been linked meanwhile, and otherwise none is.
   */
  lemma PassIsAllOrNothing(w: World, project: string, between: seq<Event>)
    requires project in w.projects && LeavesScan(between, |w.scans|)
    ensures var guesses := Pass(w, project).guesses;
            var before := After(Happen(w, Scan(project)), between);
            var after := Happen(before, Insert(|w.scans|));
            && (forall key :: key in guesses ==> key !in w.links)
            && ((forall key :: key in guesses ==> key !in before.links) ==> after.links == before.links + guesses)
            && ((exists key :: key in guesses && key in before.links) ==> after.links == before.links)
  {
    ScanWaits(Happen(w, Scan(project)), between, |w.scans|);
    PassAddsGuesses(FeaturesOf(w.features, project), ArtifactsOf(w.artifacts, project), w.links);
    hide VisitAll, After;
  }

  /** So one decision about one of its pairs, made in between, costs a pass every row it found. */
  lemma DecisionInBetweenRefusesThePass(w: World, project: string, between: seq<Event>, key: Key)
    requires project in w.projects && LeavesScan(between, |w.scans|) && ScansAreGuesses(w)
    requires key in Pass(w, project).guesses && LastDecision(Happen(w, Scan(project)), between, key).Some?
    ensures var before := After(Happen(w, Scan(project)), between);
            Happen(before, Insert(|w.scans|)).links == before.links
  {
    EventKeepsScans(w, Scan(project));
    DecisionsSurvive(Happen(w, Scan(project)), between, key);
    PassIsAllOrNothing(w, project, between);
    hide Pass, Happen, After;
  }

  /** Confidence tells: 1.0 exactly on what a person decided, and the class's worth on what was inferred. */
  ghost predicate ConfidenceTells(w: World)
  {
    forall key :: key in w.links ==>
      var l := w.links[key];
      l.confidence == l.membership.Confidence() && (l.confidence == 1.0 <==> l.membership.IsDecided())
  }

  lemma {:induction false} ConfidenceKeepsTelling(w: World, events: seq<Event>)
    requires ConfidenceTells(w) && ScansAreGuesses(w)
    ensures ConfidenceTells(After(w, events))
    decreases |events|
  {
    if events != [] {
      var w' := Happen(w, events[0]);
      EventKeepsScans(w, events[0]);
      forall key | key in w'.links
        ensures var l := w'.links[key];
                l.confidence == l.membership.Confidence() && (l.confidence == 1.0 <==> l.membership.IsDecided())
      {
        EventOnLink(w, events[0], key);
        hide Happen, HasFeature, HasArtifact, ScansAreGuesses;
      }
      hide Happen, ScansAreGuesses;
      ConfidenceKeepsTelling(w', events[1..]);
    }
  }
}
