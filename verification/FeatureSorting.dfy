/**
 Which artifacts belong to a feature: the terms it goes by, the evidence a match rests on, and how
 much that evidence is worth.
 */
module FeatureMatching {
  import opened Options
  import opened Text

  const MIN_TERM_LENGTH := 3
  const EVIDENCE_LENGTH := 256

  datatype Membership = Confirmed | Excluded | Branch | Title | Path {
    predicate IsDecided() { Confirmed? || Excluded? }

    /** The value of the class, as evidence quotes it. */
    function Name(): string
      requires !IsDecided()
    {
      match this
      case Branch => "branch"
      case Title => "title"
      case Path => "path"
    }

    /** `DEFAULT_MEMBERSHIP_CONFIDENCE`. */
    function Confidence(): real
    {
      match this
      case Confirmed => 1.0
      case Excluded => 1.0
      case Branch => 0.8
      case Title => 0.55
      case Path => 0.4
    }
  }

  /** A declared feature; `terms` is what `_terms_for` makes of its name and keywords. */
  datatype Feature = Feature(id: string, project: string, terms: seq<string>)

  /** An artifact and its case-folded haystacks. */
  datatype Artifact = Artifact(id: string, project: string, branches: seq<string>, titles: seq<string>,
                               paths: seq<string>)

  datatype Link = Link(membership: Membership, confidence: real, evidence: Option<string>,
                       decidedBy: Option<string>, decidedAt: Option<int>)

  // ------------------------------------------------------------------ terms

  /** The terms kept of a list: long enough, and each the first time it comes. */
  function Cleaned(values: seq<string>): seq<string>
  {
    if values == [] then []
    else
      var kept, value := Cleaned(values[..|values| - 1]), values[|values| - 1];
      if |value| >= MIN_TERM_LENGTH && value !in kept then kept + [value] else kept
  }

  /** `_clean_terms`, over terms stripped and folded by the functions given. */
  method CleanTerms(terms: seq<string>, strip: string -> string, casefold: string -> string)
    returns (cleaned: seq<string>)
    ensures cleaned == Cleaned(seq(|terms|, k requires 0 <= k < |terms| => casefold(strip(terms[k]))))
  {
    ghost var values := seq(|terms|, k requires 0 <= k < |terms| => casefold(strip(terms[k])));
    cleaned := [];
    for k := 0 to |terms|
      invariant cleaned == Cleaned(values[..k])
    {
      var value := casefold(strip(terms[k]));
      assert values[..k + 1][..k] == values[..k] && values[..k + 1][k] == value;
      if |value| >= MIN_TERM_LENGTH && value !in cleaned {
        cleaned := cleaned + [value];
      }
    }
    assert values[..|terms|] == values;
  }

  /** The kept terms are the long ones, all of them, once each. */
  lemma {:induction false} CleanedAreTheLongTerms(values: seq<string>)
    ensures forall v :: v in Cleaned(values) <==> v in values && |v| >= MIN_TERM_LENGTH
    ensures forall i, j :: 0 <= i < j < |Cleaned(values)| ==> Cleaned(values)[i] != Cleaned(values)[j]
  {
    if values != [] {
      var n := |values| - 1;
      CleanedAreTheLongTerms(values[..n]);
      assert values == values[..n] + [values[n]];
    }
  }

  // ------------------------------------------------------------------ evidence

  /** `term in text`. */
  predicate Contains(text: string, term: string) { exists i :: 0 <= i <= |text| && MatchesAt(text, term, i) }

  /** The first term, in order, that the text contains. */
  function TermIn(terms: seq<string>, text: string): Option<string>
  {
    if terms == [] then None
    else if Contains(text, terms[0]) then Some(terms[0])
    else TermIn(terms[1..], text)
  }

  function TermInAny(terms: seq<string>, texts: seq<string>): Option<string>
  {
    if texts == [] then None
    else
      var hit := TermIn(terms, texts[0]);
      if hit.Some? then hit else TermInAny(terms, texts[1..])
  }

  /** `_match`: branch first, then title, then path. */
  function Match(terms: seq<string>, a: Artifact): Option<(Membership, string)>
  {
    var branch, title, path := TermInAny(terms, a.branches), TermInAny(terms, a.titles), TermInAny(terms, a.paths);
    if branch.Some? then Some((Branch, branch.value))
    else if title.Some? then Some((Title, title.value))
    else if path.Some? then Some((Path, path.value))
    else None
  }

  /** Some term occurs in some of the texts. */
  ghost predicate Evidence(terms: seq<string>, texts: seq<string>)
  {
    exists text, term :: text in texts && term in terms && Contains(text, term)
  }

  lemma {:induction false} TermInIsEvidence(terms: seq<string>, text: string)
    ensures TermIn(terms, text).Some? <==> exists term :: term in terms && Contains(text, term)
    ensures TermIn(terms, text).Some? ==>
      TermIn(terms, text).value in terms && Contains(text, TermIn(terms, text).value)
  {
    hide Contains;
    if terms != [] { TermInIsEvidence(terms[1..], text); }
  }

  lemma {:induction false} TermInAnyIsEvidence(terms: seq<string>, texts: seq<string>)
    ensures TermInAny(terms, texts).Some? <==> Evidence(terms, texts)
    ensures TermInAny(terms, texts).Some? ==>
              var term := TermInAny(terms, texts).value;
              term in terms && exists text :: text in texts && Contains(text, term)
  {
    hide Contains;
    if texts != [] {
      TermInIsEvidence(terms, texts[0]);
      TermInAnyIsEvidence(terms, texts[1..]);
      assert texts[0] in texts;
    }
  }

  /** The class a match names is the strongest for which there is evidence, and its term is evidence. */
  lemma MatchNamesTheStrongest(terms: seq<string>, a: Artifact)
    ensures var m := Match(terms, a);
            && (m.None? <==> !Evidence(terms, a.branches) && !Evidence(terms, a.titles) && !Evidence(terms, a.paths))
            && (m.Some? ==>
                  && (m.value.0 == Branch <==> Evidence(terms, a.branches))
                  && (m.value.0 == Title <==> !Evidence(terms, a.branches) && Evidence(terms, a.titles))
                  && (m.value.0 == Path <==> !Evidence(terms, a.branches) && !Evidence(terms, a.titles))
                  && Evidence([m.value.1], a.branches + a.titles + a.paths) && m.value.1 in terms)
  {
    TermInAnyIsEvidence(terms, a.branches);
    TermInAnyIsEvidence(terms, a.titles);
    TermInAnyIsEvidence(terms, a.paths);
    hide Contains, TermInAny;
    var m := Match(terms, a);
    if m.Some? {
      var term, all := m.value.1, a.branches + a.titles + a.paths;
      assert term in [term];
      var texts := if m.value.0 == Branch then a.branches else if m.value.0 == Title then a.titles else a.paths;
      var text :| text in texts && Contains(text, term);
      assert text in all;
    }
  }

  /** The link a pass proposes for a pair, if any. */
  function Guess(f: Feature, a: Artifact): Option<Link>
  {
    var m := Match(f.terms, a);
    if f.terms == [] || m.None? then None
    else
      var (membership, term) := m.value;
      var evidence := membership.Name() + ": " + term;
      var kept := if |evidence| <= EVIDENCE_LENGTH then evidence else evidence[..EVIDENCE_LENGTH];
      Some(Link(membership, membership.Confidence(), Some(kept), None, None))
  }

  /** `text[:256]`. */
  predicate IsClipped(clipped: string, text: string)
  {
    clipped <= text && |clipped| == if |text| <= 256 then |text| else 256
  }

  /**
   What a guess rests on and is worth, on the artifact's own texts: 0.8 for a branch that contains one of the
   feature's terms, 0.55 for a title if no branch does, 0.4 for a path if neither does; with the class and the
   term, clipped, as its evidence, and nobody as its author.
   */
  lemma GuessSaysWhatItRestsOn(f: Feature, a: Artifact)
    ensures var g := Guess(f, a);
            var branch, title, path := Evidence(f.terms, a.branches), Evidence(f.terms, a.titles),
                                       Evidence(f.terms, a.paths);
            && (g.Some? <==> branch || title || path)
            && (g.Some? ==>
                  var l := g.value;
                  && l.decidedBy.None? && l.decidedAt.None?
                  && l.confidence == (if branch then 0.8 else if title then 0.55 else 0.4)
                  && exists term :: term in f.terms && l.evidence.Some? &&
                       (if branch then
                          l.membership == Branch && Evidence([term], a.branches) &&
                          IsClipped(l.evidence.value, "branch: " + term)
                        else if title then
                          l.membership == Title && Evidence([term], a.titles) &&
                          IsClipped(l.evidence.value, "title: " + term)
                        else
                          l.membership == Path && Evidence([term], a.paths) &&
                          IsClipped(l.evidence.value, "path: " + term)))
  {
    MatchNamesTheStrongest(f.terms, a);
    TermInAnyIsEvidence(f.terms, a.branches);
    TermInAnyIsEvidence(f.terms, a.titles);
    TermInAnyIsEvidence(f.terms, a.paths);
    hide Contains, TermInAny;
    var m := Match(f.terms, a);
    if m.Some? {
      var term := m.value.1;
      assert term in [term];
      assert "branch" + ": " == "branch: " && "title" + ": " == "title: " && "path" + ": " == "path: ";
    }
  }

  /** A guess is never worth what a decision is. */
  lemma GuessIsNoDecision(f: Feature, a: Artifact)
    ensures var g := Guess(f, a);
            g.Some? ==> && !g.value.membership.IsDecided()
                        && g.value.confidence == g.value.membership.Confidence() < 1.0
  {
  }
}

/**
 The link table: sorting passes that guess, people who decide, and artifacts that keep arriving.
 */
module FeatureSorting {
  import opened Options
  import opened FeatureMatching

  /** A pair of a feature and an artifact, by id. */
  type Key = (string, string)

  datatype SortReport = SortReport(linked: nat, alreadyLinked: nat, protected: nat, scanned: nat)

  datatype Tally = Tally(guesses: map<Key, Link>, report: SortReport)

  /** One pair of the nested loop in `sort`. */
  function Visit(t: Tally, f: Feature, a: Artifact, existing: map<Key, Link>): Tally
  {
    var key, r := (f.id, a.id), t.report;
    if f.terms == [] then t
    else if key in existing then
      t.(report := if existing[key].membership.IsDecided() then r.(protected := r.protected + 1)
                   else r.(alreadyLinked := r.alreadyLinked + 1))
    else if Guess(f, a).None? then t
    else Tally(t.guesses[key := Guess(f, a).value], r.(linked := r.linked + 1))
  }

  function VisitFeatures(t: Tally, fs: seq<Feature>, a: Artifact, existing: map<Key, Link>): Tally
  {
    if fs == [] then t else Visit(VisitFeatures(t, fs[..|fs| - 1], a, existing), fs[|fs| - 1], a, existing)
  }

  function VisitAll(fs: seq<Feature>, arts: seq<Artifact>, existing: map<Key, Link>): Tally
  {
    if arts == [] then Tally(map[], SortReport(0, 0, 0, 0))
    else VisitFeatures(VisitAll(fs, arts[..|arts| - 1], existing), fs, arts[|arts| - 1], existing)
  }

  /**
   What the service has stored, and the guesses of sorting passes that have read but not yet written:
   `sort` reads in one transaction and inserts in another.
   */
  datatype World = World(projects: set<string>, features: seq<Feature>, artifacts: seq<Artifact>,
                         links: map<Key, Link>, scans: seq<map<Key, Link>>)

  function FeaturesOf(fs: seq<Feature>, project: string): seq<Feature>
  {
    if fs == [] then []
    else if fs[0].project == project then [fs[0]] + FeaturesOf(fs[1..], project)
    else FeaturesOf(fs[1..], project)
  }

  function ArtifactsOf(arts: seq<Artifact>, project: string): seq<Artifact>
  {
    if arts == [] then []
    else if arts[0].project == project then [arts[0]] + ArtifactsOf(arts[1..], project)
    else ArtifactsOf(arts[1..], project)
  }

  function Pass(w: World, project: string): Tally
  {
    VisitAll(FeaturesOf(w.features, project), ArtifactsOf(w.artifacts, project), w.links)
  }

  /**
   What can happen, in any order: a sorting pass reads, a sorting pass inserts what it found when it
   read, a person decides, a sync stores an artifact.
   */
  datatype Event =
    | Scan(project: string)
    | Insert(scan: nat)
    | Decide(feature: string, artifact: string, belongs: bool, who: Option<string>, when: int)
    | Arrive(arrived: Artifact)

  predicate HasFeature(w: World, id: string) { exists k :: 0 <= k < |w.features| && w.features[k].id == id }

  predicate HasArtifact(w: World, id: string) { exists k :: 0 <= k < |w.artifacts| && w.artifacts[k].id == id }

  /** The row a decision leaves: a new one, or the old one with its evidence kept. */
  function Decided(before: Option<Link>, belongs: bool, who: Option<string>, when: int): Link
  {
    Link(if belongs then Confirmed else Excluded, 1.0, if before.Some? then before.value.evidence else None, who,
         Some(when))
  }

  function Lookup(links: map<Key, Link>, key: Key): Option<Link>
  {
    if key in links then Some(links[key]) else None
  }

  /** One insert of new rows: a key that exists by now refuses them all. */
  function Inserted(links: map<Key, Link>, guesses: map<Key, Link>): map<Key, Link>
  {
    if guesses.Keys !! links.Keys then links + guesses else links
  }

  function Happen(w: World, e: Event): World
  {
    match e
    case Scan(project) =>
      if project in w.projects then w.(scans := w.scans + [Pass(w, project).guesses]) else w
    case Insert(scan) =>
      if scan < |w.scans| then w.(links := Inserted(w.links, w.scans[scan]), scans := w.scans[scan := map[]]) else w
    case Decide(feature, artifact, belongs, who, when) =>
      var key := (feature, artifact);
      if HasFeature(w, feature) && HasArtifact(w, artifact)
      then w.(links := w.links[key := Decided(Lookup(w.links, key), belongs, who, when)]) else w
    case Arrive(a) => w.(artifacts := Stored(w.artifacts, a))
  }

  /** An upsert of an artifact: replaced where it stands, appended if new. */
  function Stored(arts: seq<Artifact>, a: Artifact): seq<Artifact>
  {
    if arts == [] then [a]
    else if arts[0].id == a.id then [a] + arts[1..]
    else [arts[0]] + Stored(arts[1..], a)
  }

  lemma HasIsMembership(w: World, feature: string, artifact: string)
    ensures HasFeature(w, feature) <==> exists f :: f in w.features && f.id == feature
    ensures HasArtifact(w, artifact) <==> exists a :: a in w.artifacts && a.id == artifact
  {
    if HasFeature(w, feature) {
      var k :| 0 <= k < |w.features| && w.features[k].id == feature;
      assert w.features[k] in w.features;
    }
    if HasArtifact(w, artifact) {
      var k :| 0 <= k < |w.artifacts| && w.artifacts[k].id == artifact;
      assert w.artifacts[k] in w.artifacts;
    }
  }

  class FeatureService {
    var projects: set<string>
    var features: seq<Feature>
    var artifacts: seq<Artifact>
    var links: map<Key, Link>

    constructor (w: World)
      ensures State(w.scans) == w
    {
      projects, features, artifacts, links := w.projects, w.features, w.artifacts, w.links;
    }

    /** The stored rows, beside the passes that are under way. */
    function State(scans: seq<map<Key, Link>>): World
      reads this
    {
      World(projects, features, artifacts, links, scans)
    }

    /** The first transaction of `sort` and the loops after it; `None` is the project that does not exist. */
    method ScanProject(project: string) returns (t: Option<Tally>)
      ensures t.None? <==> project !in projects
      ensures t.Some? ==>
                && t.value.guesses == Pass(State([]), project).guesses
                && t.value.report == (if FeaturesOf(features, project) == [] then SortReport(0, 0, 0, 0)
                                      else
                                        var report := Pass(State([]), project).report;
                                        report.(scanned := |ArtifactsOf(artifacts, project)|))
    {
      if project !in projects {
        return None;
      }
      var mine := FeaturesOf(features, project);
      var scanned := ArtifactsOf(artifacts, project);
      if mine == [] {
        NothingToSort(scanned, links);
        return Some(Tally(map[], SortReport(0, 0, 0, 0)));
      }
      var found := Tally(map[], SortReport(0, 0, 0, 0));
      for i := 0 to |scanned|
        invariant found == VisitAll(mine, scanned[..i], links)
      {
        assert scanned[..i + 1][..i] == scanned[..i];
        found := SortArtifact(found, mine, scanned[i], links);
      }
      assert scanned[..|scanned|] == scanned;
      t := Some(found.(report := found.report.(scanned := |scanned|)));
    }

    /** The second transaction of `sort`: all rows, or none if one of the pairs has been linked since. */
    method InsertGuesses(guesses: map<Key, Link>) returns (inserted: bool)
      modifies this`links
      ensures inserted <==> forall key :: key in guesses ==> key !in old(links)
      ensures State([map[]]) == Happen(old(State([guesses])), Insert(0))
    {
      inserted := guesses.Keys !! links.Keys;
      if inserted {
        links := links + guesses;
      }
      assert [guesses][0 := map[]] == [map[]];
    }

    /** `sort`, when nothing comes between its two transactions. */
    method SortProject(project: string) returns (report: Option<SortReport>)
      modifies this`links
      ensures report.None? <==> project !in projects
      ensures links == if report.None? then old(links) else old(links) + Pass(old(State([])), project).guesses
      ensures report.Some? && FeaturesOf(features, project) != [] ==>
                report.value == Pass(old(State([])), project).report.(scanned := |ArtifactsOf(artifacts, project)|)
    {
      var t := ScanProject(project);
      if t.None? {
        return None;
      }
      PassAddsGuesses(FeaturesOf(features, project), ArtifactsOf(artifacts, project), links);
      var inserted := InsertGuesses(t.value.guesses);
      report := Some(t.value.report);
    }

    /** `decide`; false is a feature or an artifact that does not exist. */
    method DecideMembership(feature: string, artifact: string, belongs: bool, who: Option<string>, when: int)
      returns (found: bool)
      modifies this`links
      ensures State([]) == Happen(old(State([])), Decide(feature, artifact, belongs, who, when))
      ensures found <==>
                (exists f :: f in features && f.id == feature) && (exists a :: a in artifacts && a.id == artifact)
      ensures !found ==> links == old(links)
      ensures found ==>
                var key := (feature, artifact);
                && links.Keys == old(links).Keys + {key}
                && (forall other :: other in old(links) && other != key ==> links[other] == old(links)[other])
                && links[key].membership == (if belongs then Confirmed else Excluded)
                && links[key].confidence == 1.0
                && links[key].decidedBy == who && links[key].decidedAt == Some(when)
                && links[key].evidence == if key in old(links) then old(links)[key].evidence else None
    {
      HasIsMembership(State([]), feature, artifact);
      if !HasFeature(State([]), feature) || !HasArtifact(State([]), artifact) {
        return false;
      }
      var key := (feature, artifact);
      var membership := if belongs then Confirmed else Excluded;
      if key !in links {
        links := links[key := Link(membership, 1.0, None, who, Some(when))];
      } else {
        links := links[key := links[key].(membership := membership, confidence := 1.0,
                                          decidedAt := Some(when), decidedBy := who)];
      }
      found := true;
    }
  }

  /** The inner loop of `sort`: one artifact against every feature of the project. */
  method SortArtifact(before: Tally, mine: seq<Feature>, a: Artifact, existing: map<Key, Link>) returns (t: Tally)
    ensures t == VisitFeatures(before, mine, a, existing)
  {
    var guesses, linked: nat, alreadyLinked: nat, protected: nat :=
      before.guesses, before.report.linked, before.report.alreadyLinked, before.report.protected;
    for j := 0 to |mine|
      invariant Tally(guesses, SortReport(linked, alreadyLinked, protected, before.report.scanned)) ==
                VisitFeatures(before, mine[..j], a, existing)
    {
      assert mine[..j + 1][..j] == mine[..j];
      var f := mine[j];
      if f.terms != [] {
        var key := (f.id, a.id);
        if key in existing {
          if existing[key].membership.IsDecided() {
            protected := protected + 1;
          } else {
            alreadyLinked := alreadyLinked + 1;
          }
        } else {
          var guess := Guess(f, a);
          if guess.Some? {
            guesses := guesses[key := guess.value];
            linked := linked + 1;
          }
        }
      }
    }
    assert mine[..|mine|] == mine;
    t := Tally(guesses, SortReport(linked, alreadyLinked, protected, before.report.scanned));
  }

  lemma {:induction false} NothingToSort(arts: seq<Artifact>, existing: map<Key, Link>)
    ensures VisitAll([], arts, existing) == Tally(map[], SortReport(0, 0, 0, 0))
  {
    if arts != [] { NothingToSort(arts[..|arts| - 1], existing); }
  }

  /** A pass never touches a link that exists, and what it adds is never a decision. */
  lemma {:induction false} FeaturesAddGuesses(t: Tally, fs: seq<Feature>, a: Artifact, existing: map<Key, Link>)
    requires forall key :: key in t.guesses ==> key !in existing && IsGuess(t.guesses[key])
    ensures var t' := VisitFeatures(t, fs, a, existing);
            forall key :: key in t'.guesses ==> key !in existing && IsGuess(t'.guesses[key])
    decreases |fs|
  {
    if fs != [] {
      FeaturesAddGuesses(t, fs[..|fs| - 1], a, existing);
      GuessIsNoDecision(fs[|fs| - 1], a);
      hide Guess;
    }
  }

  /** An inference: one of the three classes, at the confidence that class is worth. */
  predicate IsGuess(l: Link) { !l.membership.IsDecided() && l.confidence == l.membership.Confidence() }

  lemma {:induction false} PassAddsGuesses(fs: seq<Feature>, arts: seq<Artifact>, existing: map<Key, Link>)
    ensures var t := VisitAll(fs, arts, existing);
            forall key :: key in t.guesses ==> key !in existing && IsGuess(t.guesses[key])
    decreases |arts|
  {
    if arts != [] {
      PassAddsGuesses(fs, arts[..|arts| - 1], existing);
      hide VisitFeatures;
      FeaturesAddGuesses(VisitAll(fs, arts[..|arts| - 1], existing), fs, arts[|arts| - 1], existing);
    }
  }
}
