/**
 What an inferred link is worth after a while: it is the guess of some pass, from the rows that pass
 read, and nothing ever revisits it.
 */
module FeatureGuesses {
  import opened Options
  import opened Text
  import opened FeatureMatching
  import opened FeatureSorting
  import opened FeatureHistory

  // ------------------------------------------------------------ where guesses come from

  /** The guess for a pair, from the rows as they are stored now. */
  function GuessNow(w: World, key: Key): Option<Link>
  {
    var f, a := FeatureById(w.features, key.0), ArtifactById(w.artifacts, key.1);
    if f.Some? && a.Some? then Guess(f.value, a.value) else None
  }

  /** Some pass of the history read the rows when they yielded this guess. */
  predicate GuessedAtSomeScan(w: World, events: seq<Event>, key: Key, link: Link)
    decreases |events|
  {
    events != [] &&
    ((events[0].Scan? && GuessNow(w, key) == Some(link)) ||
     GuessedAtSomeScan(Happen(w, events[0]), events[1..], key, link))
  }

  lemma {:induction false} StoredKeepsIds(arts: seq<Artifact>, a: Artifact)
    requires DistinctArtifacts(arts)
    ensures DistinctArtifacts(Stored(arts, a))
    ensures forall k :: 0 <= k < |Stored(arts, a)| ==>
              Stored(arts, a)[k] == a || exists j :: 0 <= j < |arts| && arts[j] == Stored(arts, a)[k]
  {
    if arts != [] && arts[0].id != a.id {
      StoredKeepsIds(arts[1..], a);
      var rest := Stored(arts[1..], a);
      forall k | 0 <= k < |rest|
        ensures rest[k].id != arts[0].id
        ensures rest[k] == a || exists j :: 0 <= j < |arts| && arts[j] == rest[k]
      {
        if rest[k] != a {
          var j :| 0 <= j < |arts[1..]| && arts[1..][j] == rest[k];
          assert arts[j + 1] == rest[k];
        }
      }
    }
  }

  lemma EventKeepsKeys(w: World, e: Event)
    requires Keyed(w)
    ensures Keyed(Happen(w, e))
  {
    if e.Arrive? { StoredKeepsIds(w.artifacts, e.arrived); }
    hide Pass, HasFeature, HasArtifact;
  }

  lemma ByIdIsUnique(fs: seq<Feature>, f: Feature, arts: seq<Artifact>, a: Artifact)
    requires DistinctFeatures(fs) && DistinctArtifacts(arts) && f in fs && a in arts
    ensures FeatureById(fs, f.id) == Some(f) && ArtifactById(arts, a.id) == Some(a)
  {
    var i :| 0 <= i < |fs| && fs[i] == f;
    var j :| 0 <= j < |arts| && arts[j] == a;
    var g, b := FeatureById(fs, f.id), ArtifactById(arts, a.id);
    var k :| 0 <= k < |fs| && fs[k] == g.value;
    var l :| 0 <= l < |arts| && arts[l] == b.value;
  }

  /** What a pass finds are the guesses of the moment. */
  lemma PassFindsGuesses(w: World, project: string, key: Key)
    requires Keyed(w) && key in Pass(w, project).guesses
    ensures key !in w.links && GuessNow(w, key) == Some(Pass(w, project).guesses[key])
  {
    var fs, arts := FeaturesOf(w.features, project), ArtifactsOf(w.artifacts, project);
    FeaturesOfTheProject(w.features, project);
    ArtifactsOfTheProject(w.artifacts, project);
    PassAddsItsProposals(fs, arts, w.links, key);
    var f, a := FeatureById(fs, key.0), ArtifactById(arts, key.1);
    hide VisitAll, Guess;
    ByIdIsUnique(w.features, f.value, w.artifacts, a.value);
  }

  /** The link is stored, or a pass under way is about to store it. */
  predicate Pending(w: World, key: Key, link: Link)
  {
    Lookup(w.links, key) == Some(link) || exists k :: 0 <= k < |w.scans| && Lookup(w.scans[k], key) == Some(link)
  }

  lemma EventOnPending(w: World, e: Event, key: Key, link: Link)
    requires Keyed(w) && !link.membership.IsDecided() && Pending(Happen(w, e), key, link)
    ensures Pending(w, key, link) || (e.Scan? && GuessNow(w, key) == Some(link))
  {
    var w' := Happen(w, e);
    hide Pass, GuessNow, HasFeature, HasArtifact;
    if Lookup(w'.links, key) == Some(link) {
      if e.Insert? && e.scan < |w.scans| && Lookup(w.links, key) != Some(link) {
        assert Lookup(w.scans[e.scan], key) == Some(link);
      }
    } else {
      var k :| 0 <= k < |w'.scans| && Lookup(w'.scans[k], key) == Some(link);
      if k < |w.scans| {
        assert Lookup(w.scans[k], key) == Some(link);
      } else {
        PassFindsGuesses(w, e.project, key);
      }
    }
  }

  /**
   Every inferred link of every history was there, or on its way, at the start, or is exactly the guess
   that some pass of the history made from the feature and the artifact as they stood when it read.
   */
  lemma {:induction false} InferredLinksWereGuessed(w: World, events: seq<Event>, key: Key, link: Link)
    requires Keyed(w) && !link.membership.IsDecided() && Pending(After(w, events), key, link)
    ensures Pending(w, key, link) || GuessedAtSomeScan(w, events, key, link)
    decreases |events|
  {
    if events != [] {
      EventKeepsKeys(w, events[0]);
      hide Happen, Keyed, Pending, GuessNow;
      InferredLinksWereGuessed(Happen(w, events[0]), events[1..], key, link);
      if Pending(Happen(w, events[0]), key, link) {
        EventOnPending(w, events[0], key, link);
      }
    }
  }

  // ------------------------------------------------------------ whether they are still right

  /** The class names the strongest evidence the artifact holds for the terms. */
  ghost predicate NamesStrongest(m: Membership, terms: seq<string>, a: Artifact)
  {
    match m
    case Branch => Evidence(terms, a.branches)
    case Title => !Evidence(terms, a.branches) && Evidence(terms, a.titles)
    case Path => !Evidence(terms, a.branches) && !Evidence(terms, a.titles) && Evidence(terms, a.paths)
    case _ => false
  }

  /** A class is right for an artifact exactly if matching the artifact now would name it. */
  lemma StillRightIff(m: Membership, f: Feature, a: Artifact)
    ensures NamesStrongest(m, f.terms, a) <==> Guess(f, a).Some? && Guess(f, a).value.membership == m
  {
    MatchNamesTheStrongest(f.terms, a);
    hide Evidence, TermInAny;
    if f.terms == [] { NoTermsNoEvidence(a); }
  }

  lemma NoTermsNoEvidence(a: Artifact)
    ensures !Evidence([], a.branches) && !Evidence([], a.titles) && !Evidence([], a.paths)
  {
  }

  /**
   An inferred link of a history that began with none is the guess some pass made; whether it still
   names the strongest evidence is whether matching the present rows would name the same class.
   */
  lemma InferredLinkIsRightIff(w: World, events: seq<Event>, key: Key)
    requires Keyed(w) && w.links == map[] && w.scans == []
    requires key in After(w, events).links && !After(w, events).links[key].membership.IsDecided()
    ensures var w', link := After(w, events), After(w, events).links[key];
            var f, a := FeatureById(w'.features, key.0), ArtifactById(w'.artifacts, key.1);
            && GuessedAtSomeScan(w, events, key, link)
            && (f.Some? && a.Some? ==>
                  (NamesStrongest(link.membership, f.value.terms, a.value) <==>
                     GuessNow(w', key).Some? && GuessNow(w', key).value.membership == link.membership))
  {
    var w', link := After(w, events), After(w, events).links[key];
    InferredLinksWereGuessed(w, events, key, link);
    var f, a := FeatureById(w'.features, key.0), ArtifactById(w'.artifacts, key.1);
    if f.Some? && a.Some? { StillRightIff(link.membership, f.value, a.value); }
    hide After, Guess, FeatureById, ArtifactById, NamesStrongest, GuessedAtSomeScan;
  }

  /** Every inferred link, stored or on its way, is what matching the present rows yields. */
  ghost predicate GuessesHold(w: World)
  {
    forall key, link :: Pending(w, key, link) && !link.membership.IsDecided() ==> GuessNow(w, key) == Some(link)
  }

  /** The arriving artifact yields, for every inferred link to it, the guess that link is. */
  ghost predicate ArrivalAgrees(w: World, a: Artifact)
  {
    forall key, link :: Pending(w, key, link) && !link.membership.IsDecided() && key.1 == a.id ==>
      var f := FeatureById(w.features, key.0);
      f.Some? && Guess(f.value, a) == Some(link)
  }

  lemma {:induction false} StoredById(arts: seq<Artifact>, a: Artifact, id: string)
    requires DistinctArtifacts(arts)
    ensures ArtifactById(Stored(arts, a), id) == if id == a.id then Some(a) else ArtifactById(arts, id)
  {
    StoredKeepsIds(arts, a);
    var stored := Stored(arts, a);
    StoredHolds(arts, a);
    var now, then_ := ArtifactById(stored, id), ArtifactById(arts, id);
    if id == a.id {
      OneArtifactPerId(stored, a);
    } else {
      if now.Some? {
        var k :| 0 <= k < |stored| && stored[k] == now.value;
        var j :| 0 <= j < |arts| && arts[j] == stored[k];
        OneArtifactPerId(arts, arts[j]);
      }
      if then_.Some? { OneArtifactPerId(stored, then_.value); }
    }
  }

  lemma OneArtifactPerId(arts: seq<Artifact>, a: Artifact)
    requires DistinctArtifacts(arts) && a in arts
    ensures ArtifactById(arts, a.id) == Some(a)
  {
    var j :| 0 <= j < |arts| && arts[j] == a;
    var l :| 0 <= l < |arts| && arts[l] == ArtifactById(arts, a.id).value;
  }

  lemma {:induction false} StoredHolds(arts: seq<Artifact>, a: Artifact)
    ensures a in Stored(arts, a)
    ensures forall b :: b in arts && b.id != a.id ==> b in Stored(arts, a)
  {
    if arts != [] && arts[0].id != a.id { StoredHolds(arts[1..], a); }
  }

  /** An arriving artifact, new or changed, keeps every inferred link right exactly if it agrees with them. */
  lemma ArrivalKeepsGuessesIff(w: World, a: Artifact)
    requires Keyed(w) && GuessesHold(w)
    ensures GuessesHold(Happen(w, Arrive(a))) <==> ArrivalAgrees(w, a)
  {
    var w' := Happen(w, Arrive(a));
    forall key, link
      ensures Pending(w', key, link) <==> Pending(w, key, link)
      ensures GuessNow(w', key) == if key.1 != a.id then GuessNow(w, key)
                                   else
                                     var f := FeatureById(w.features, key.0);
                                     if f.Some? then Guess(f.value, a) else None
    {
      StoredById(w.artifacts, a, key.1);
      hide Guess, FeatureById, ArtifactById, Stored;
    }
    hide Pending, GuessNow, Guess, FeatureById, Happen;
  }

  /** Every arrival of the history agrees with the links it meets; one that is new always does. */
  ghost predicate ArrivalsAgree(w: World, events: seq<Event>)
    decreases |events|
  {
    events == [] ||
    ((events[0].Arrive? ==> ArrivalAgrees(w, events[0].arrived)) && ArrivalsAgree(Happen(w, events[0]), events[1..]))
  }

  lemma RowsStay(w: World, e: Event)
    requires !e.Arrive?
    ensures Happen(w, e).features == w.features && Happen(w, e).artifacts == w.artifacts
  {
  }

  lemma EventKeepsGuesses(w: World, e: Event)
    requires Keyed(w) && GuessesHold(w) && (e.Arrive? ==> ArrivalAgrees(w, e.arrived))
    ensures Keyed(Happen(w, e)) && GuessesHold(Happen(w, e))
  {
    EventKeepsKeys(w, e);
    if e.Arrive? {
      ArrivalKeepsGuessesIff(w, e.arrived);
    } else {
      var w' := Happen(w, e);
      forall key, link | Pending(w', key, link) && !link.membership.IsDecided()
        ensures GuessNow(w', key) == Some(link)
      {
        EventOnPending(w, e, key, link);
        RowsStay(w, e);
      }
    }
    hide Happen, Pending, GuessNow, ArrivalAgrees;
  }

  /** Along agreeing arrivals every inferred link names the strongest evidence there is. */
  lemma {:induction false} InferredLinksNameTheStrongest(w: World, events: seq<Event>, key: Key)
    requires Keyed(w) && GuessesHold(w) && ArrivalsAgree(w, events)
    requires key in After(w, events).links && !After(w, events).links[key].membership.IsDecided()
    ensures var w', link := After(w, events), After(w, events).links[key];
            var f, a := FeatureById(w'.features, key.0), ArtifactById(w'.artifacts, key.1);
            && f.Some? && a.Some? && Guess(f.value, a.value) == Some(link)
            && NamesStrongest(link.membership, f.value.terms, a.value)
    decreases |events|
  {
    if events != [] {
      EventKeepsGuesses(w, events[0]);
      hide Happen, Keyed, GuessesHold, NamesStrongest;
      InferredLinksNameTheStrongest(Happen(w, events[0]), events[1..], key);
    } else {
      assert Pending(w, key, w.links[key]);
      var f, a := FeatureById(w.features, key.0), ArtifactById(w.artifacts, key.1);
      StillRightIff(w.links[key].membership, f.value, a.value);
      hide Guess, NamesStrongest, FeatureById, ArtifactById;
    }
  }

  // ------------------------------------------------------------ a link that went stale

  /** One feature and one artifact, sorted; then the artifact changes and the project is sorted again. */
  function Changes(f: Feature, changed: Artifact): seq<Event>
  {
    [Scan(f.project), Insert(0), Arrive(changed), Scan(f.project), Insert(1)]
  }

  /** Whatever the artifact now says, the link stays the guess of the first pass: no pass revisits it. */
  lemma StaleLinkStays(f: Feature, a: Artifact, changed: Artifact)
    requires a.id == changed.id && a.project == f.project && Guess(f, a).Some?
    ensures var w := After(World({f.project}, [f], [a], map[], []), Changes(f, changed));
            && w.artifacts == [changed]
            && Lookup(w.links, (f.id, a.id)) == Guess(f, a)
  {
    var key := (f.id, a.id);
    var w0 := World({f.project}, [f], [a], map[], []);
    var events := Changes(f, changed);
    var w1 := Happen(w0, events[0]);
    var w2 := Happen(w1, events[1]);
    OneGuess(f, a, w0);
    assert Lookup(w2.links, key) == Guess(f, a) by { hide Pass, Guess; }
    assert w2.artifacts == [a];
    var w3 := Happen(w2, events[2]);
    assert w3.artifacts == [changed];
    ScansOfOne(w0, w1, w2);
    EventKeepsScans(w0, events[0]);
    EventKeepsScans(w1, events[1]);
    hide Pass, Guess, ScansAreGuesses;
    var rest := [events[2], events[3], events[4]];
    assert events == [events[0], events[1]] + rest;
    assert events[1..][1..] == rest;
    assert After(w0, events) == After(w2, rest) by {
      hide Happen;
      assert After(w0, events) == After(w1, events[1..]);
      assert After(w1, events[1..]) == After(w2, events[1..][1..]);
    }
    DecisionsSurvive(w2, rest, key);
    assert LastDecision(w2, rest, key).None? by { NoDecision(w2, rest, key); }
    ArtifactsAfter(w2, rest, a, changed);
  }

  lemma ScansOfOne(w0: World, w1: World, w2: World)
    requires w0.scans == []
    ensures ScansAreGuesses(w0)
  {
  }

  lemma {:induction false} NoDecision(w: World, events: seq<Event>, key: Key)
    requires forall e :: e in events ==> !e.Decide?
    ensures LastDecision(w, events, key).None?
    decreases |events|
  {
    if events != [] {
      assert events[0] in events;
      hide Happen;
      NoDecision(Happen(w, events[0]), events[1..], key);
    }
  }

  lemma ArtifactsAfter(w: World, rest: seq<Event>, a: Artifact, changed: Artifact)
    requires w.artifacts == [a] && a.id == changed.id
    requires |rest| == 3 && rest[0] == Arrive(changed) && rest[1].Scan? && rest[2].Insert?
    ensures After(w, rest).artifacts == [changed]
  {
    hide Pass, Inserted;
    var w1 := Happen(w, rest[0]);
    var w2 := Happen(w1, rest[1]);
    assert rest[1..][0] == rest[1] && rest[1..][1..][0] == rest[2] && rest[1..][1..][1..] == [];
    assert After(w, rest) == After(w1, rest[1..]);
    assert After(w1, rest[1..]) == After(w2, rest[1..][1..]);
    assert After(w2, rest[1..][1..]) == Happen(w2, rest[2]);
  }

  lemma OneGuess(f: Feature, a: Artifact, w: World)
    requires w == World({f.project}, [f], [a], map[], []) && a.project == f.project && Guess(f, a).Some?
    ensures Lookup(Pass(w, f.project).guesses, (f.id, a.id)) == Guess(f, a)
  {
    assert [f][1..] == [] && [a][1..] == [];
    assert FeaturesOf([f], f.project) == [f] + FeaturesOf([f][1..], f.project);
    assert ArtifactsOf([a], f.project) == [a] + ArtifactsOf([a][1..], f.project);
    PassAddsItsProposals([f], [a], map[], (f.id, a.id));
    OneArtifactPerId([a], a);
    ByIdIsUnique([f], f, [a], a);
    hide VisitAll, Guess;
  }

  /** A title that no longer mentions the feature: the link still claims it does. */
  lemma StaleLinkExample()
    ensures var f, a, changed := Feature("f", "p", ["upload"]), Artifact("a", "p", [], ["upload"], []),
                                 Artifact("a", "p", [], ["readme"], []);
            var w := After(World({"p"}, [f], [a], map[], []), Changes(f, changed));
            && ("f", "a") in w.links && w.links[("f", "a")].membership == Title
            && !NamesStrongest(Title, f.terms, w.artifacts[0])
  {
    var f, a, changed := Feature("f", "p", ["upload"]), Artifact("a", "p", [], ["upload"], []),
                         Artifact("a", "p", [], ["readme"], []);
    assert MatchesAt("upload", "upload", 0);
    assert Contains("upload", "upload");
    assert !Contains("readme", "upload") by {
      forall i | 0 <= i <= 6 ensures !MatchesAt("readme", "upload", i) {
        if i == 0 { assert "readme"[0..6] == "readme"; }
      }
    }
    assert TermInAny(["upload"], ["upload"]) == Some("upload");
    StaleLinkStays(f, a, changed);
    hide After, Contains;
  }
}
