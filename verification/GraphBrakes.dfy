/**
 Three brakes that need no help: the step ceiling bounds the nodes that run and the token budget bounds
 what they spend, whatever the edges do, and the progress brake bounds the rewrites whatever the revision
 cap is.
 */
module GraphBrakes {
  import opened Options
  import opened InvestigationState
  import opened Router
  import opened InvestigationGraph
  import opened GraphTermination
  import StatePreview

  // ----------------------------------------------------------- step ceiling

  /** A visit to some node, chosen by no edge in particular. */
  datatype Leg = Leg(node: Node, visit: Visit)

  function Land(cfg: Settings, s: State, leg: Leg): State
  {
    var t := Interrupted(s, leg.visit);
    Apply(t, Wrapped(leg.node, t, cfg, leg.visit.entered, leg.visit.landed, leg.visit.outcome))
  }

  /** A node runs in its own right, not because the exit path is exempt from a guard that fired. */
  predicate RunsUnhalted(cfg: Settings, s: State, leg: Leg)
  {
    CheckGuards(Interrupted(s, leg.visit), cfg, leg.visit.entered).None?
  }

  function UnhaltedRuns(cfg: Settings, s: State, tour: seq<Leg>): nat
    decreases |tour|
  {
    if tour == [] then 0
    else (if RunsUnhalted(cfg, s, tour[0]) then 1 else 0) + UnhaltedRuns(cfg, Land(cfg, s, tour[0]), tour[1..])
  }

  /** A node that counts itself counts at least one step. */
  predicate CountsItself(o: Outcome)
  {
    o.Returns? && o.delta.stepCount.Some? ==> o.delta.stepCount.value >= 1
  }

  lemma LandCounts(cfg: Settings, s: State, leg: Leg)
    requires CountsItself(leg.visit.outcome)
    ensures Land(cfg, s, leg).stepCount >= s.stepCount + if RunsUnhalted(cfg, s, leg) then 1 else 0
    ensures RunsUnhalted(cfg, s, leg) ==> s.stepCount < cfg.maxSteps
  {
    var t := Interrupted(s, leg.visit);
    var d := Checked(leg.node, t, CheckGuards(t, cfg, leg.visit.entered), leg.visit.outcome);
    StampsOnlyStatus(leg.node, d, t, cfg, leg.visit.landed);
    hide StampStatus;
  }

  /** Whatever the edges decide, no more nodes run than the step ceiling leaves room for. */
  lemma {:induction false} StepCeilingAlone(cfg: Settings, s: State, tour: seq<Leg>)
    requires forall leg :: leg in tour ==> CountsItself(leg.visit.outcome)
    ensures UnhaltedRuns(cfg, s, tour) <= Max(0, cfg.maxSteps - s.stepCount)
    decreases |tour|
  {
    if tour != [] {
      LandCounts(cfg, s, tour[0]);
      hide Land, RunsUnhalted;
      StepCeilingAlone(cfg, Land(cfg, s, tour[0]), tour[1..]);
    }
  }

  // ----------------------------------------------------------- token budget

  function Spent(s: State): int { s.tokens.input + s.tokens.output }

  /** What a node reports to have spent; one that times out or raises reports nothing. */
  function Reported(o: Outcome): int
  {
    if o.Returns? && o.delta.tokens.Some? then o.delta.tokens.value.input + o.delta.tokens.value.output else 0
  }

  /** What the nodes of a tour spend that run in their own right. */
  function UnhaltedSpending(cfg: Settings, s: State, tour: seq<Leg>): int
    decreases |tour|
  {
    if tour == [] then 0
    else
      (if RunsUnhalted(cfg, s, tour[0]) then Reported(tour[0].visit.outcome) else 0) +
      UnhaltedSpending(cfg, Land(cfg, s, tour[0]), tour[1..])
  }

  /** A node is charged what it reports, and one that runs in its own right was entered below the budget. */
  lemma LandSpends(cfg: Settings, s: State, leg: Leg)
    ensures var t := Interrupted(s, leg.visit);
            Spent(Land(cfg, s, leg)) ==
              Spent(s) + if Called(leg.node, t, cfg, leg.visit.entered) then Reported(leg.visit.outcome) else 0
    ensures RunsUnhalted(cfg, s, leg) ==>
              Called(leg.node, Interrupted(s, leg.visit), cfg, leg.visit.entered) && Spent(s) < cfg.tokenBudget
  {
    var t := Interrupted(s, leg.visit);
    GuardsFireIff(t, cfg, leg.visit.entered);
    var d := Checked(leg.node, t, CheckGuards(t, cfg, leg.visit.entered), leg.visit.outcome);
    StampsOnlyStatus(leg.node, d, t, cfg, leg.visit.landed);
    assert d.tokens == RawDelta(leg.visit.outcome).tokens by { hide CheckGuards, AlreadyRecorded; }
    hide StampStatus, CheckGuards, Checked;
  }

  /**
   Whatever the edges decide, nodes that run in their own right overspend the token budget by less than what
   one of them may spend.
   */
  lemma {:induction false} TokenCeilingAlone(cfg: Settings, s: State, tour: seq<Leg>, most: nat)
    requires forall leg :: leg in tour ==> 0 <= Reported(leg.visit.outcome) <= most
    ensures UnhaltedSpending(cfg, s, tour) <= Max(0, cfg.tokenBudget - Spent(s) - 1 + most)
    decreases |tour|
  {
    if tour != [] {
      LandSpends(cfg, s, tour[0]);
      assert tour[0] in tour;
      hide Land, RunsUnhalted, Called, Reported, Spent;
      TokenCeilingAlone(cfg, Land(cfg, s, tour[0]), tour[1..], most);
    }
  }

  // --------------------------------------------------------- progress brake

  /** The visit re-enters the loop from the Critic. */
  predicate Reenters(cfg: Settings, c: Config, v: Visit)
    requires c.place.At?
  {
    var p := Step(cfg, c, v).place;
    c.place.node == Critic && p.At? && OnLoop(p.node)
  }

  function Reentries(cfg: Settings, c: Config, visits: seq<Visit>): nat
    decreases |visits|
  {
    if c.place.Done? || visits == [] then 0
    else (if Reenters(cfg, c, visits[0]) then 1 else 0) + Reentries(cfg, Step(cfg, c, visits[0]), visits[1..])
  }

  /** The node hands back a critique. One that times out, raises or says nothing does not. */
  predicate Critiques(o: Outcome) { o.Returns? && o.delta.critique.Some? && o.delta.critique.value.Some? }

  /** How often the run comes to the Critic and gets no critique. */
  function FailedPasses(cfg: Settings, c: Config, visits: seq<Visit>): nat
    decreases |visits|
  {
    if c.place.Done? || visits == [] then 0
    else
      (if c.place.node == Critic && !Critiques(visits[0].outcome) then 1 else 0) +
      FailedPasses(cfg, Step(cfg, c, visits[0]), visits[1..])
  }

  /** How a visit moves the history: only a called Critic node lengthens it, by the critique it hands back. */
  lemma StepHistory(cfg: Settings, c: Config, v: Visit)
    requires c.place.At? && Lawful(c.place.node, v.outcome)
    ensures var h, h' := c.state.history, Step(cfg, c, v).state.history;
            && h <= h'
            && (!IsCritic(c.place.node) || !Critiques(v.outcome) ==> h' == h)
            && (c.place.node == Critic && Critiques(v.outcome) ==>
                  Called(Critic, Interrupted(c.state, v), cfg, v.entered) ==> |h'| == |h| + 1)
  {
    hide StatePreview.Merged;
    var s := Interrupted(c.state, v);
    var d := Checked(c.place.node, s, CheckGuards(s, cfg, v.entered), v.outcome);
    StampsOnlyStatus(c.place.node, d, s, cfg, v.landed);
    hide StampStatus, RouteAfter, CheckGuards, Called;
  }

  /**
   A visit to the Critic sends the run back exactly if the critique that stands then asks for a rewrite and
   nothing is against it: no guard, no revision cap, an artifact that changed, and fewer open findings than
   last time.
   */
  lemma RewriteIsDispatchedIff(cfg: Settings, c: Config, v: Visit)
    requires c.place == At(Critic)
    ensures var s := Step(cfg, c, v).state;
            var h, n := s.history, |s.history|;
            Reenters(cfg, c, v) <==>
              && CheckGuards(s, cfg, v.routed).None?
              && s.critique.Some? && s.critique.value.verdict == Revise && s.revisionCount < cfg.maxRevisions
              && (n >= 2 ==> && (h[n - 1].sha == "" || h[n - 1].sha != h[n - 2].sha)
                             && Unresolved(h[n - 1]) < Unresolved(h[n - 2]))
  {
    var s := Step(cfg, c, v).state;
    GuardsFireIff(s, cfg, v.routed);
    StepLeadsOn(cfg, c, v);
    hide Wrapped, CheckGuards, Unresolved, Interrupted, Step;
  }

  lemma StepLeadsOn(cfg: Settings, c: Config, v: Visit)
    requires c.place.At?
    ensures Step(cfg, c, v).place == PlaceOf(RouteAfter(c.place.node, Step(cfg, c, v).state, cfg, v.routed))
  {
    hide Wrapped, RouteAfter;
  }

  /** A re-entry on a new critique found fewer open findings than the pass before it. */
  lemma ReentryMadeProgress(cfg: Settings, c: Config, now: real, v: Visit)
    requires c.place == At(Critic) && Lawful(Critic, v.outcome) && Timely(now, v) && Reenters(cfg, c, v)
    requires Critiques(v.outcome)
    ensures var h, h' := c.state.history, Step(cfg, c, v).state.history;
            && h <= h' && |h'| == |h| + 1
            && (h != [] ==> Unresolved(h'[|h|]) < Unresolved(h[|h| - 1]))
  {
    if !Called(Critic, Interrupted(c.state, v), cfg, v.entered) {
      SkippedGoesOn(cfg, c, now, v);
      assert false;
    }
    StepHistory(cfg, c, v);
    RewriteIsDispatchedIff(cfg, c, v);
    hide Step, Called, CheckGuards, Interrupted, Unresolved, Lawful, Reenters;
  }

  /**
   However many revisions are allowed, each re-entry uses up an open finding of the last critique, or
   answers a Critic pass that produced none.
   */
  lemma {:induction false} ProgressBrakeAlone(cfg: Settings, c: Config, now: real, visits: seq<Visit>)
    requires LawfulRun(cfg, c, now, visits) && c.state.history != []
    ensures Reentries(cfg, c, visits) <=
            Unresolved(c.state.history[|c.state.history| - 1]) + FailedPasses(cfg, c, visits)
    decreases |visits|
  {
    if c.place.At? && visits != [] {
      var v, c' := visits[0], Step(cfg, c, visits[0]);
      StepHistory(cfg, c, v);
      if Reenters(cfg, c, v) && Critiques(v.outcome) {
        ReentryMadeProgress(cfg, c, now, v);
        hide Step, Unresolved, Lawful;
        ProgressBrakeAlone(cfg, c', v.routed, visits[1..]);
      } else if IsCritic(c.place.node) && !Reenters(cfg, c, v) {
        CriticLeaves(cfg, c, v);
        hide Step, Unresolved, Lawful;
        NoReentryOffLoop(cfg, c', v.routed, visits[1..]);
      } else {
        hide Step, Unresolved, Lawful;
        ProgressBrakeAlone(cfg, c', v.routed, visits[1..]);
      }
    }
  }

  lemma CriticLeaves(cfg: Settings, c: Config, v: Visit)
    requires c.place.At? && IsCritic(c.place.node) && !Reenters(cfg, c, v)
    ensures var p := Step(cfg, c, v).place; p.At? ==> OnExitPath(p.node)
  {
    EdgeOutOf(c.place.node, Step(cfg, c, v).state, cfg, v.routed);
    hide Wrapped, CheckGuards, Interrupted, RouteAfter;
  }

  lemma {:induction false} NoReentryOffLoop(cfg: Settings, c: Config, now: real, visits: seq<Visit>)
    requires LawfulRun(cfg, c, now, visits) && (c.place.At? ==> OnExitPath(c.place.node))
    ensures Reentries(cfg, c, visits) == 0
    decreases |visits|
  {
    if c.place.At? && visits != [] {
      assert Step(cfg, c, visits[0]).place.At? ==> OnExitPath(Step(cfg, c, visits[0]).place.node) by {
        EdgeOutOf(c.place.node, Step(cfg, c, visits[0]).state, cfg, visits[0].routed);
        hide Wrapped, CheckGuards, Interrupted, RouteAfter;
      }
      hide Step, Lawful;
      NoReentryOffLoop(cfg, Step(cfg, c, visits[0]), visits[0].routed, visits[1..]);
    }
  }

  /**
   From an empty history: the first critique's open findings, the one re-entry that had nothing to be
   compared with, and the passes that produced no critique.
   */
  lemma {:induction false} FirstCritiqueBoundsRewrites(cfg: Settings, c: Config, now: real, visits: seq<Visit>)
    requires LawfulRun(cfg, c, now, visits) && c.state.history == []
    ensures var h := Run(cfg, c, visits).state.history;
            Reentries(cfg, c, visits) <= FailedPasses(cfg, c, visits) + if h == [] then 0 else Unresolved(h[0]) + 1
    decreases |visits|
  {
    if c.place.At? && visits != [] {
      var v, c' := visits[0], Step(cfg, c, visits[0]);
      StepHistory(cfg, c, v);
      if Reenters(cfg, c, v) && Critiques(v.outcome) {
        ReentryMadeProgress(cfg, c, now, v);
        hide Step, Unresolved, Lawful;
        ProgressBrakeAlone(cfg, c', v.routed, visits[1..]);
        HistoryGrows(cfg, c', v.routed, visits[1..]);
      } else if IsCritic(c.place.node) && !Reenters(cfg, c, v) {
        CriticLeaves(cfg, c, v);
        hide Step, Unresolved, Lawful;
        NoReentryOffLoop(cfg, c', v.routed, visits[1..]);
      } else {
        hide Step, Unresolved, Lawful;
        FirstCritiqueBoundsRewrites(cfg, c', v.routed, visits[1..]);
      }
    }
  }

  // ------------------------------------------------------------ artifact brake

  /** Every critique handed back is of one and the same artifact. */
  predicate OfOneArtifact(visits: seq<Visit>, sha: string)
  {
    forall v :: v in visits && Critiques(v.outcome) ==> v.outcome.delta.critique.value.value.sha == sha
  }

  lemma OneArtifactLater(visits: seq<Visit>, sha: string)
    requires visits != [] && OfOneArtifact(visits, sha)
    ensures OfOneArtifact(visits[1..], sha)
    ensures Critiques(visits[0].outcome) ==> visits[0].outcome.delta.critique.value.value.sha == sha
  {
    assert visits[0] in visits;
  }

  /** The critique a called Critic node hands back is the last of the history. */
  lemma CritiqueIsRecorded(cfg: Settings, c: Config, v: Visit)
    requires c.place.At? && IsCritic(c.place.node) && Lawful(c.place.node, v.outcome) && Critiques(v.outcome)
    requires Called(c.place.node, Interrupted(c.state, v), cfg, v.entered)
    requires c.place.node == Critic || v.outcome.delta.history.Some?
    ensures Step(cfg, c, v).state.history == c.state.history + [v.outcome.delta.critique.value.value]
  {
    hide StatePreview.Merged;
    var s := Interrupted(c.state, v);
    var d := Checked(c.place.node, s, CheckGuards(s, cfg, v.entered), v.outcome);
    StampsOnlyStatus(c.place.node, d, s, cfg, v.landed);
    hide StampStatus, RouteAfter, CheckGuards, Called;
  }

  lemma OnlyTheCriticReenters(cfg: Settings, c: Config, v: Visit)
    requires c.place.At?
    ensures Reenters(cfg, c, v) ==> c.place.node == Critic
  {
    hide Step;
  }

  /** Once a critique of the artifact stands, another one of it never sends the run back. */
  lemma {:induction false} UnchangedArtifactIsNotRewritten(cfg: Settings, c: Config, now: real, visits: seq<Visit>,
                                                           sha: string)
    requires LawfulRun(cfg, c, now, visits) && OfOneArtifact(visits, sha) && sha != ""
    requires c.state.history != [] && c.state.history[|c.state.history| - 1].sha == sha
    ensures Reentries(cfg, c, visits) <= FailedPasses(cfg, c, visits)
    decreases |visits|
  {
    hide Step, Reenters, OfOneArtifact, Lawful, Timely, Critiques;
    if c.place.At? && visits != [] {
      var v, c' := visits[0], Step(cfg, c, visits[0]);
      OneArtifactLater(visits, sha);
      OnlyTheCriticReenters(cfg, c, v);
      if IsCritic(c.place.node) && !Reenters(cfg, c, v) {
        CriticLeaves(cfg, c, v);
        NoReentryOffLoop(cfg, c', v.routed, visits[1..]);
      } else {
        ReentryKeepsTheArtifact(cfg, c, now, v, sha);
        UnchangedArtifactIsNotRewritten(cfg, c', v.routed, visits[1..], sha);
      }
    }
  }

  /** A visit that does not leave the loop: the standing critique is still of the artifact, and no new one came. */
  lemma ReentryKeepsTheArtifact(cfg: Settings, c: Config, now: real, v: Visit, sha: string)
    requires c.place.At? && Lawful(c.place.node, v.outcome) && Timely(now, v) && sha != ""
    requires IsCritic(c.place.node) ==> Reenters(cfg, c, v)
    requires Critiques(v.outcome) ==> v.outcome.delta.critique.value.value.sha == sha
    requires c.state.history != [] && c.state.history[|c.state.history| - 1].sha == sha
    ensures Step(cfg, c, v).state.history == c.state.history
    ensures Reenters(cfg, c, v) ==> !Critiques(v.outcome)
  {
    StepHistory(cfg, c, v);
    if c.place.node == Critic && Critiques(v.outcome) {
      ReentersIsCalled(cfg, c, now, v);
      CritiqueIsRecorded(cfg, c, v);
      RewriteIsDispatchedIff(cfg, c, v);
    }
    hide Step, Called, CheckGuards, Interrupted, Unresolved, Lawful;
  }

  lemma ReentersIsCalled(cfg: Settings, c: Config, now: real, v: Visit)
    requires c.place == At(Critic) && Lawful(Critic, v.outcome) && Timely(now, v) && Reenters(cfg, c, v)
    ensures Called(Critic, Interrupted(c.state, v), cfg, v.entered)
  {
    hide Called, Step;
    if !Called(Critic, Interrupted(c.state, v), cfg, v.entered) {
      SkippedGoesOn(cfg, c, now, v);
    }
  }

  /**
   However many revisions are allowed and whatever the findings, an artifact that a rewrite does not change
   is rewritten once at most, passes without a critique apart.
   */
  lemma {:induction false} ArtifactBrakeAlone(cfg: Settings, c: Config, now: real, visits: seq<Visit>, sha: string)
    requires LawfulRun(cfg, c, now, visits) && OfOneArtifact(visits, sha) && sha != "" && c.state.history == []
    ensures Reentries(cfg, c, visits) <= 1 + FailedPasses(cfg, c, visits)
    decreases |visits|
  {
    if c.place.At? && visits != [] {
      var v, c' := visits[0], Step(cfg, c, visits[0]);
      OneArtifactLater(visits, sha);
      StepHistory(cfg, c, v);
      if IsCritic(c.place.node) && !Reenters(cfg, c, v) {
        CriticLeaves(cfg, c, v);
        hide Step, Lawful, OfOneArtifact;
        NoReentryOffLoop(cfg, c', v.routed, visits[1..]);
      } else if c.place.node == Critic && Critiques(v.outcome) {
        ReentersIsCalled(cfg, c, now, v);
        CritiqueIsRecorded(cfg, c, v);
        hide Step, Lawful, OfOneArtifact, Called;
        UnchangedArtifactIsNotRewritten(cfg, c', v.routed, visits[1..], sha);
      } else {
        hide Step, Lawful, OfOneArtifact, Reenters;
        ArtifactBrakeAlone(cfg, c', v.routed, visits[1..], sha);
      }
    }
  }

  lemma {:induction false} HistoryGrows(cfg: Settings, c: Config, now: real, visits: seq<Visit>)
    requires LawfulRun(cfg, c, now, visits)
    ensures c.state.history <= Run(cfg, c, visits).state.history
    decreases |visits|
  {
    if c.place.At? && visits != [] {
      StepHistory(cfg, c, visits[0]);
      hide Step, Lawful;
      HistoryGrows(cfg, Step(cfg, c, visits[0]), visits[0].routed, visits[1..]);
    }
  }
}
