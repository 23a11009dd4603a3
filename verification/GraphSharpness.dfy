/**
 The bound on the length of an investigation is exact: some run of lawful, quiet nodes uses every
 one of the visits that `GraphTermination` allows it.
 */
module GraphSharpness {
  import opened Options
  import opened InvestigationState
  import opened Router
  import opened InvestigationGraph
  import opened GraphTermination
  import opened GraphStatus
  import opened GraphOutcome

  /** A critique that asks for new evidence and has `open` findings. */
  function Rewrite(open: nat): Critique
  {
    Critique(Revise, Some(RetrieverStage), seq(open, _ => Finding(false, None)), "")
  }

  lemma {:induction false} RewriteHasOpen(open: nat)
    ensures Unresolved(Rewrite(open)) == open
  {
    AllOpen(Rewrite(open).findings);
  }

  lemma {:induction false} AllOpen(findings: seq<Finding>)
    requires forall f :: f in findings ==> !f.resolved
    ensures CountUnresolved(findings) == |findings|
  {
    if findings != [] { AllOpen(findings[1..]); }
  }

  /** What the node at `p` answers when the Critic still has `left` rewrites to ask for. */
  function Answer(p: Node, left: nat): Delta
  {
    match p
    case Planner => NO_DELTA.(plan := Some([PlanStep(true)]))
    case Critic => NO_DELTA.(critique := Some(Some(Rewrite(left))))
    case _ => NO_DELTA
  }

  /** The longest run from `p`: every rewrite goes back to the retriever with one finding fewer. */
  function Longest(p: Node, left: nat): (visits: seq<Visit>)
    ensures |visits| == Distance(At(p)) + if OnLoop(p) then 5 * left else 0
    decreases left, Distance(At(p))
  {
    [Returning(Answer(p, left))] + var (q, rest) := Next(p, left); if q.At? then Longest(q.node, rest) else []
  }

  /** The state such a run is in when it comes to `p`. */
  predicate OnTrack(cfg: Settings, p: Node, left: nat, s: State)
  {
    && Clear(s, cfg)
    && s.stepCount + |Longest(p, left)| <= cfg.maxSteps
    && (OnLoop(p) ==>
          && s.revisionCount + (if WantsRevision(s.critique) then 1 else 0) + left == cfg.maxRevisions
          && s.revisionCount >= 0
          && (s.history != [] ==>
                var last := s.history[|s.history| - 1]; last.sha == "" && Unresolved(last) == left + 1))
  }

  /** Who comes after `p` in that run, and with how many rewrites left. */
  function Next(p: Node, left: nat): (Place, nat)
  {
    match p
    case Planner => (At(Collector), left)
    case Collector => (At(Retriever), left)
    case Retriever => (At(GraphExpansion), left)
    case GraphExpansion => (At(Insight), left)
    case Insight => (At(Strategy), left)
    case Strategy => (At(Critic), left)
    case Critic => if left > 0 then (At(Retriever), left - 1) else (At(Reporter), 0)
    case Reporter => (At(CriticFinal), left)
    case CriticFinal => (Done, 0)
  }

  /** What a visit of that run does to what the guards and the brakes read. */
  lemma VisitOnTrack(cfg: Settings, p: Node, left: nat, s: State)
    requires Clear(s, cfg)
    ensures var s', d := Step(cfg, Config(At(p), s), Returning(Answer(p, left))).state, Answer(p, left);
            && s'.errors == [] && s'.stepCount == s.stepCount + 1 && s'.tokens == s.tokens && s'.deadline == s.deadline
            && (p != CriticFinal ==> s'.status == PhaseStatus(p))
            && s'.plan == Replace(s.plan, d.plan)
            && (p == Critic ==>
                  && s'.critique == Some(Rewrite(left)) && s'.history == s.history + [Rewrite(left)]
                  && s'.revisionCount ==
                       if WantsRevision(s.critique) then Max(0, s.revisionCount + 1) else s.revisionCount)
            && (p != Critic ==>
                  s'.critique == s.critique && s'.history == s.history && s'.revisionCount == s.revisionCount)
            && Step(cfg, Config(At(p), s), Returning(d)).place == PlaceOf(RouteAfter(p, s', cfg, 0.0))
  {
    SmoothStep(cfg, p, s, Answer(p, left));
    hide Step, CheckGuards, TerminalStatus, Blocked, Rewrite, RouteAfter;
  }

  /** The edge such a visit takes. */
  lemma EdgeOnTrack(cfg: Settings, p: Node, left: nat, s: State)
    requires p != CriticFinal ==> Clear(s, cfg)
    requires p == Planner ==> s.plan == [PlanStep(true)] && s.stepCount + 6 <= cfg.maxSteps
    requires p == Critic ==>
               && s.critique == Some(Rewrite(left)) && s.revisionCount + left == cfg.maxRevisions
               && s.history != [] && s.history[|s.history| - 1] == Rewrite(left)
               && (|s.history| >= 2 ==> Unresolved(s.history[|s.history| - 2]) == left + 1)
    ensures PlaceOf(RouteAfter(p, s, cfg, 0.0)) == Next(p, left).0
  {
    if p != CriticFinal { ClearGuard(s, cfg); }
    if p == Planner { assert PlanStep(true) in s.plan; }
    RewriteHasOpen(left);
    assert Rewrite(left).verdict == Revise && Rewrite(left).stage == Some(RetrieverStage) && Rewrite(left).sha == "";
    hide CheckGuards, Unresolved, Clear, Blocked, Rewrite;
  }

  /** One visit of that run leaves it on track. */
  lemma StaysOnTrack(cfg: Settings, p: Node, left: nat, s: State)
    requires OnTrack(cfg, p, left, s)
    ensures var c' := Step(cfg, Config(At(p), s), Returning(Answer(p, left)));
            && c'.place == Next(p, left).0
            && (c'.place.At? ==> OnTrack(cfg, c'.place.node, Next(p, left).1, c'.state))
  {
    hide Step, CheckGuards, TerminalStatus, Unresolved, Blocked, Rewrite, RouteAfter;
    var s' := Step(cfg, Config(At(p), s), Returning(Answer(p, left))).state;
    VisitOnTrack(cfg, p, left, s);
    RewriteHasOpen(left);
    RewriteAsks(left);
    LongestSteps(p, left);
    hide Longest, Answer;
    assert p != CriticFinal ==> Clear(s', cfg);
    EdgeOnTrack(cfg, p, left, s');
  }

  lemma RewriteAsks(open: nat)
    ensures Rewrite(open).verdict == Revise && Rewrite(open).sha == ""
  {
  }

  lemma LongestSteps(p: Node, left: nat)
    ensures var (q, rest) := Next(p, left); |Longest(p, left)| == 1 + if q.At? then |Longest(q.node, rest)| else 0
  {
  }

  /** Every visit is used: the run is not over before any of them. */
  ghost predicate UsesAll(cfg: Settings, c: Config, visits: seq<Visit>)
    decreases |visits|
  {
    visits == [] || (c.place.At? && UsesAll(cfg, Step(cfg, c, visits[0]), visits[1..]))
  }

  lemma {:induction false} LongestIsUsedUp(cfg: Settings, p: Node, left: nat, s: State)
    requires OnTrack(cfg, p, left, s)
    ensures var c, visits := Config(At(p), s), Longest(p, left);
            && UsesAll(cfg, c, visits) && Run(cfg, c, visits).place.Done?
            && LawfulRun(cfg, c, 0.0, visits) && Quiet(visits)
    decreases left, Distance(At(p))
  {
    var c, visits := Config(At(p), s), Longest(p, left);
    var v, c' := Returning(Answer(p, left)), Step(cfg, c, Returning(Answer(p, left)));
    var next, rest := Next(p, left), visits[1..];
    StaysOnTrack(cfg, p, left, s);
    AnswerIsLawful(p, left);
    LongestUnfolds(p, left);
    hide Step, OnTrack, Lawful, Longest, Answer, Timely, Next, OwnStatus;
    if next.0.At? {
      LongestIsUsedUp(cfg, next.0.node, next.1, c'.state);
    }
  }

  lemma AnswerIsLawful(p: Node, left: nat)
    ensures var v := Returning(Answer(p, left));
            Lawful(p, v.outcome) && OwnStatus(v.outcome).None? && Timely(0.0, v) && v.routed == 0.0
  {
  }

  lemma LongestUnfolds(p: Node, left: nat)
    ensures var visits, next := Longest(p, left), Next(p, left);
            && visits != [] && visits[0] == Returning(Answer(p, left))
            && visits[1..] == (if next.0.At? then Longest(next.0.node, next.1) else [])
    ensures var next := Next(p, left);
            next.0.At? ==> next.1 < left || (next.1 == left && Distance(next.0) < Distance(At(p)))
  {
  }

  /** For any revision cap, given the steps and a token, nine visits and five per revision are all made. */
  lemma TerminationBoundIsExact(cfg: Settings)
    requires cfg.maxSteps >= 9 + 5 * cfg.maxRevisions && cfg.tokenBudget > 0
    ensures var c, visits := Config(At(Planner), NewState(1.0)), Longest(Planner, cfg.maxRevisions);
            && |visits| == 9 + 5 * cfg.maxRevisions
            && LawfulRun(cfg, c, 0.0, visits) && Quiet(visits)
            && UsesAll(cfg, c, visits) && Run(cfg, c, visits).place.Done?
  {
    hide Run, UsesAll, LawfulRun;
    LongestIsUsedUp(cfg, Planner, cfg.maxRevisions, NewState(1.0));
  }
}
