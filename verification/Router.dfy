/**
 Every edge and every termination predicate of the investigation graph.
 */
module Router {
  import opened Options
  import opened InvestigationState

  datatype Node =
    | Planner | Collector | Retriever | GraphExpansion | Insight | Strategy | Critic | Reporter | CriticFinal

  /** Where an edge leads. */
  datatype Route = To(node: Node) | End

  /** `AgentSettings`, the fields that bound a run. */
  datatype Settings = Settings(maxSteps: int, timeout: real, maxRevisions: nat, tokenBudget: int)

  const FIXED_TAIL_STEPS := 5

  datatype HaltReason = MaxSteps | Deadline | TokenBudget | PlanTooLarge | BlockingError | CancelledRun {
    /** The string recorded as `error_type`. */
    function Name(): string
    {
      match this
      case MaxSteps => "max_steps_exceeded"
      case Deadline => "deadline_exceeded"
      case TokenBudget => "token_budget_exhausted"
      case PlanTooLarge => "plan_exceeds_step_budget"
      case BlockingError => "blocking_error"
      case CancelledRun => "cancelled"
    }
  }

  datatype Halt = Halt(reason: HaltReason, route: Route, status: Status)

  /** `_first_blocking_error` finds something. */
  predicate Blocked(s: State)
  {
    exists e :: e in s.errors && !e.recoverable
  }

  /** `check_guards`. */
  function CheckGuards(s: State, cfg: Settings, now: real): Option<Halt>
  {
    if s.status == Cancelled then Some(Halt(CancelledRun, End, Cancelled))
    else if s.status.IsTerminal() then Some(Halt(CancelledRun, End, s.status))
    else if Blocked(s) then Some(Halt(BlockingError, End, Failed))
    else if s.stepCount >= cfg.maxSteps then Some(Halt(MaxSteps, To(Reporter), CompletedWithFindings))
    else if s.deadline.Some? && now >= s.deadline.value then Some(Halt(Deadline, To(Reporter), CompletedWithFindings))
    else if s.tokens.Total() >= cfg.tokenBudget then Some(Halt(TokenBudget, To(Reporter), CompletedWithFindings))
    else None
  }

  /** `halt_error`. */
  function HaltError(h: Halt): AgentError
  {
    AgentError(h.reason.Name(), h.status != Failed)
  }

  /** `_plan_exceeds_budget`. */
  predicate PlanExceedsBudget(s: State, cfg: Settings)
  {
    s.stepCount + (|s.plan| + FIXED_TAIL_STEPS) > cfg.maxSteps
  }

  predicate NeedsFreshData(s: State)
  {
    exists p :: p in s.plan && p.needsSync
  }

  // ------------------------------------------------------------------ edges

  /** An edge that always leads to `next`, after the guard had first refusal. */
  function Guarded(s: State, cfg: Settings, now: real, next: Route): Route
  {
    var h := CheckGuards(s, cfg, now);
    if h.Some? then h.value.route else next
  }

  /** `route_after_planner`. */
  function RouteAfterPlanner(s: State, cfg: Settings, now: real): Route
  {
    Guarded(s, cfg, now,
            if PlanExceedsBudget(s, cfg) then To(Reporter)
            else if NeedsFreshData(s) then To(Collector)
            else To(Retriever))
  }

  /** `route_after_critic`: guard, verdict, the three brakes, and only then the re-entry. */
  function RouteAfterCritic(s: State, cfg: Settings, now: real): Route
  {
    Guarded(s, cfg, now,
            if s.critique.None? || s.critique.value.verdict != Revise then To(Reporter)
            else if s.revisionCount >= cfg.maxRevisions then To(Reporter)
            else if ArtifactUnchanged(s.history) then To(Reporter)
            else if ProgressStalled(s.history) then To(Reporter)
            else To(ReentryTarget(s.critique.value)))
  }

  /** The conditional edge out of every node. No fan-out branch exists, so Insight follows expansion. */
  function RouteAfter(node: Node, s: State, cfg: Settings, now: real): Route
  {
    match node
    case Planner => RouteAfterPlanner(s, cfg, now)
    case Collector => Guarded(s, cfg, now, To(Retriever))
    case Retriever => Guarded(s, cfg, now, To(GraphExpansion))
    case GraphExpansion => Guarded(s, cfg, now, To(Insight))
    case Insight => Guarded(s, cfg, now, To(Strategy))
    case Strategy => Guarded(s, cfg, now, To(Critic))
    case Critic => RouteAfterCritic(s, cfg, now)
    case Reporter => To(CriticFinal)
    case CriticFinal => End
  }

  // ----------------------------------------------------------------- brakes

  /** `_artifact_unchanged`. */
  predicate ArtifactUnchanged(history: seq<Critique>)
  {
    var n := |history|;
    n >= 2 && history[n - 1].sha != "" && history[n - 1].sha == history[n - 2].sha
  }

  function CountUnresolved(findings: seq<Finding>): nat
  {
    if findings == [] then 0 else (if findings[0].resolved then 0 else 1) + CountUnresolved(findings[1..])
  }

  /** `_unresolved_count`. */
  function Unresolved(c: Critique): nat { CountUnresolved(c.findings) }

  /** `_progress_stalled`. */
  predicate ProgressStalled(history: seq<Critique>)
  {
    var n := |history|;
    n >= 2 && Unresolved(history[n - 1]) >= Unresolved(history[n - 2])
  }

  function FirstStage(findings: seq<Finding>): Option<Stage>
  {
    if findings == [] then None
    else if findings[0].stage.Some? then findings[0].stage
    else FirstStage(findings[1..])
  }

  /** `_reentry_target`. */
  function ReentryTarget(c: Critique): Node
  {
    match (if c.stage.Some? then c.stage else FirstStage(c.findings))
    case Some(RetrieverStage) => Retriever
    case Some(StrategyStage) => Strategy
    case _ => Insight
  }

  // ----------------------------------------------------------------- status

  /** `phase_status`. */
  function PhaseStatus(node: Node): Status
  {
    match node
    case Planner => Planning
    case Critic => Reflecting
    case CriticFinal => Reflecting
    case _ => Running
  }

  /** `terminal_status`. */
  function TerminalStatus(s: State, cfg: Settings, now: real): Status
  {
    if Blocked(s) then Failed
    else if s.status == Cancelled || s.status == Failed then s.status
    else if CheckGuards(s, cfg, now).Some? then CompletedWithFindings
    else if s.report.None? then CompletedWithFindings
    else if s.critique.Some? && s.critique.value.verdict == Accept && Unresolved(s.critique.value) == 0 then Completed
    else CompletedWithFindings
  }

  // ------------------------------------------------------------ both directions

  /**
   When a guard fires, on the fields of the state: the run is over, an error cannot be recovered from, or one
   of the three budgets is used up. Which of them it is decides the reason, the route and the status.
   */
  lemma GuardsFireIff(s: State, cfg: Settings, now: real)
    ensures var h := CheckGuards(s, cfg, now);
            var over := s.status in {Completed, CompletedWithFindings, Failed, Cancelled};
            var broken := exists e :: e in s.errors && !e.recoverable;
            var stepsSpent := s.stepCount >= cfg.maxSteps;
            var late := s.deadline.Some? && s.deadline.value <= now;
            var tokensSpent := s.tokens.input + s.tokens.output >= cfg.tokenBudget;
            && (h.Some? <==> over || broken || stepsSpent || late || tokensSpent)
            && (over ==> h == Some(Halt(CancelledRun, End, s.status)))
            && (!over && broken ==> h == Some(Halt(BlockingError, End, Failed)))
            && (!over && !broken && h.Some? ==>
                  h.value.route == To(Reporter) && h.value.status == CompletedWithFindings &&
                  h.value.reason == if stepsSpent then MaxSteps else if late then Deadline else TokenBudget)
            && (h.Some? ==>
                  HaltError(h.value) ==
                    if over then AgentError("cancelled", s.status != Failed)
                    else if broken then AgentError("blocking_error", false)
                    else AgentError(if stepsSpent then "max_steps_exceeded"
                                    else if late then "deadline_exceeded" else "token_budget_exhausted", true))
  {
    hide Blocked;
    assert Blocked(s) <==> exists e :: e in s.errors && !e.recoverable by { BlockedIff(s); }
  }

  lemma BlockedIff(s: State)
    ensures Blocked(s) <==> exists e :: e in s.errors && !e.recoverable
  {
  }

  function OpenFindings(findings: seq<Finding>): set<int>
  {
    set k | 0 <= k < |findings| && !findings[k].resolved
  }

  lemma {:induction false} CountOfOneMore(findings: seq<Finding>, last: Finding)
    ensures CountUnresolved(findings + [last]) == CountUnresolved(findings) + if last.resolved then 0 else 1
  {
    if findings == [] {
      assert [last][1..] == [];
    } else {
      assert (findings + [last])[1..] == findings[1..] + [last];
      CountOfOneMore(findings[1..], last);
    }
  }

  /** The count is the number of findings that are not resolved. */
  lemma {:induction false} CountIsOpenFindings(findings: seq<Finding>)
    ensures CountUnresolved(findings) == |OpenFindings(findings)|
    ensures CountUnresolved(findings) == 0 <==> forall k :: 0 <= k < |findings| ==> findings[k].resolved
    decreases |findings|
  {
    if findings == [] {
      assert OpenFindings(findings) == {};
    } else {
      var n := |findings| - 1;
      var front, last := findings[..n], findings[n];
      CountIsOpenFindings(front);
      CountOfOneMore(front, last);
      assert findings == front + [last];
      assert OpenFindings(findings) == OpenFindings(front) + if last.resolved then {} else {n};
    }
  }

  /**
   What the final pass may say: a failure if an error is unrecoverable, a cancellation or a failure that
   stands, and `completed` only if no guard fired, there is a report and the critique accepts it with every
   finding resolved.
   */
  lemma TerminalStatusIff(s: State, cfg: Settings, now: real)
    ensures var st, broken := TerminalStatus(s, cfg, now), exists e :: e in s.errors && !e.recoverable;
            && st.IsTerminal()
            && (st == Failed <==> broken || s.status == Failed)
            && (st == Cancelled <==> !broken && s.status == Cancelled)
            && (st == Completed <==>
                  && CheckGuards(s, cfg, now).None? && s.report.Some?
                  && s.critique.Some? && s.critique.value.verdict == Accept
                  && forall k :: 0 <= k < |s.critique.value.findings| ==> s.critique.value.findings[k].resolved)
  {
    GuardsFireIff(s, cfg, now);
    BlockedIff(s);
    if s.critique.Some? { CountIsOpenFindings(s.critique.value.findings); }
    hide CheckGuards, Blocked, CountUnresolved;
  }

  /** Where a plan leads that no guard stands against: past the Collector unless a step needs fresh data. */
  lemma PlannerLeadsToCollectorIff(s: State, cfg: Settings, now: real)
    requires CheckGuards(s, cfg, now).None?
    ensures var r := RouteAfterPlanner(s, cfg, now);
            && (r == To(Reporter) <==> s.stepCount + |s.plan| + 5 > cfg.maxSteps)
            && (r == To(Collector) <==>
                  s.stepCount + |s.plan| + 5 <= cfg.maxSteps && exists k :: 0 <= k < |s.plan| && s.plan[k].needsSync)
            && (r == To(Retriever) <==>
                  s.stepCount + |s.plan| + 5 <= cfg.maxSteps && forall k :: 0 <= k < |s.plan| ==> !s.plan[k].needsSync)
  {
    hide CheckGuards;
    if p :| p in s.plan && p.needsSync {
      var k :| 0 <= k < |s.plan| && s.plan[k] == p;
    }
  }

  /** The stage a critique names: its own label, or else that of the first finding that has one. */
  ghost predicate Names(c: Critique, stage: Stage)
  {
    c.stage == Some(stage) ||
    (c.stage.None? && exists k :: 0 <= k < |c.findings| && c.findings[k].stage == Some(stage) &&
                                  forall j :: 0 <= j < k ==> c.findings[j].stage.None?)
  }

  /** A rewrite goes back to the stage named, and to Insight for any other or none. */
  lemma RewriteReentersAtTheStageNamed(c: Critique)
    ensures ReentryTarget(c) == Retriever <==> Names(c, RetrieverStage)
    ensures ReentryTarget(c) == Strategy <==> Names(c, StrategyStage)
    ensures ReentryTarget(c) == Insight <==> !Names(c, RetrieverStage) && !Names(c, StrategyStage)
  {
    FirstStageIsNamedFirst(c.findings);
    hide FirstStage;
  }

  /** The stage named by the critique wins, then the first one named by a finding; Insight otherwise. */
  lemma {:induction false} FirstStageIsNamedFirst(findings: seq<Finding>)
    ensures var stage := FirstStage(findings);
            && (stage.None? <==> forall k :: 0 <= k < |findings| ==> findings[k].stage.None?)
            && (stage.Some? ==> exists k :: 0 <= k < |findings| && findings[k].stage == stage &&
                                            forall j :: 0 <= j < k ==> findings[j].stage.None?)
  {
    if findings != [] && findings[0].stage.None? {
      FirstStageIsNamedFirst(findings[1..]);
      if FirstStage(findings).Some? {
        var k :| 0 <= k < |findings[1..]| && findings[1..][k].stage == FirstStage(findings) &&
                 forall j :: 0 <= j < k ==> findings[1..][j].stage.None?;
        assert findings[k + 1].stage == FirstStage(findings);
        assert forall j :: 0 < j < k + 1 ==> findings[j] == findings[1..][j - 1];
      } else {
        assert forall j :: 0 < j < |findings| ==> findings[j] == findings[1..][j - 1];
      }
    }
  }
}
