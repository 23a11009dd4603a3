/**
 How long a run can take: every node gets what is left of the investigation, and the two nodes that
 ship the report keep a grace after the deadline.
 */
module GraphClock {
  import opened Options
  import opened InvestigationState
  import opened Router
  import opened InvestigationGraph
  import opened GraphTermination

  const MIN_NODE_TIMEOUT := 1.0
  const EXIT_PATH_GRACE_FRACTION := 0.1

  function Least(a: real, b: real): real { if a <= b then a else b }

  function Most(a: real, b: real): real { if a >= b then a else b }

  /** `_exit_path_grace`. */
  function ExitPathGrace(cfg: Settings): real { Most(MIN_NODE_TIMEOUT, cfg.timeout * EXIT_PATH_GRACE_FRACTION) }

  /** `_node_timeout`: the slice a node entered at `now` may use. */
  function NodeTimeout(node: Node, s: State, cfg: Settings, now: real): real
  {
    var ceiling :=
      if s.deadline.None? then cfg.timeout
      else
        var remaining := s.deadline.value - now;
        Least(cfg.timeout, if OnExitPath(node) then Most(remaining, ExitPathGrace(cfg)) else remaining);
    Most(MIN_NODE_TIMEOUT, ceiling)
  }

  /** No time passes between nodes, a skipped node takes none, and a called one keeps to its slice. */
  predicate Prompt(cfg: Settings, c: Config, now: real, v: Visit)
    requires c.place.At?
  {
    var s := Interrupted(c.state, v);
    && v.entered == now
    && now <= v.landed
    && v.landed <= now + (if Called(c.place.node, s, cfg, now) then NodeTimeout(c.place.node, s, cfg, now) else 0.0)
    && v.routed == v.landed
  }

  ghost predicate PromptRun(cfg: Settings, c: Config, now: real, visits: seq<Visit>)
    decreases |visits|
  {
    c.place.Done? || visits == [] ||
    (Lawful(c.place.node, visits[0].outcome) && Prompt(cfg, c, now, visits[0]) &&
     PromptRun(cfg, Step(cfg, c, visits[0]), visits[0].routed, visits[1..]))
  }

  /** When the run stands where it stands after its visits. */
  function ClockAfter(cfg: Settings, c: Config, now: real, visits: seq<Visit>): real
    decreases |visits|
  {
    if c.place.Done? || visits == [] then now
    else ClockAfter(cfg, Step(cfg, c, visits[0]), visits[0].routed, visits[1..])
  }

  /** The latest a run started at `start` can be at a place. */
  function Latest(cfg: Settings, start: real, deadline: real, p: Place): real
  {
    Most(start, deadline + MIN_NODE_TIMEOUT) +
    match p
    case Done => 2.0 * ExitPathGrace(cfg)
    case At(CriticFinal) => ExitPathGrace(cfg)
    case At(_) => 0.0
  }

  /** A node on the way to the report cannot outlive the deadline by more than the floor. */
  lemma WorkerSlice(node: Node, s: State, cfg: Settings, now: real, deadline: real)
    requires !OnExitPath(node) && s.deadline == Some(deadline) && Called(node, s, cfg, now)
    ensures now + NodeTimeout(node, s, cfg, now) <= deadline + MIN_NODE_TIMEOUT
  {
    hide Blocked;
  }

  /** A node of the exit path gets the grace, or what is left if that is more. */
  lemma ExitSlice(node: Node, s: State, cfg: Settings, now: real, deadline: real)
    requires OnExitPath(node) && s.deadline == Some(deadline)
    ensures now + NodeTimeout(node, s, cfg, now) <= Most(deadline, now + ExitPathGrace(cfg))
  {
  }

  /**
   No slice is shorter than a second or longer than the run's timeout, a node gets what is left until the
   deadline, and on the exit path that or the grace, whichever is more.
   */
  lemma SlicesAreUsable(node: Node, s: State, cfg: Settings, now: real)
    ensures var slice := NodeTimeout(node, s, cfg, now);
            && MIN_NODE_TIMEOUT <= slice <= Most(MIN_NODE_TIMEOUT, cfg.timeout)
            && (s.deadline.None? ==> slice == Most(MIN_NODE_TIMEOUT, cfg.timeout))
            && (OnExitPath(node) ==> slice >= Least(cfg.timeout, ExitPathGrace(cfg)))
            && (s.deadline.Some? && MIN_NODE_TIMEOUT <= s.deadline.value - now <= cfg.timeout &&
                (!OnExitPath(node) || s.deadline.value - now >= ExitPathGrace(cfg)) ==>
                  now + slice == s.deadline.value)
            && ExitPathGrace(cfg) == if cfg.timeout >= 10.0 then cfg.timeout / 10.0 else 1.0
  {
  }

  /** What follows what: only the Report leads to the final pass, and the exit path to nothing else. */
  lemma EdgesOfTheExitPath(node: Node, s: State, cfg: Settings, now: real)
    ensures var p := PlaceOf(RouteAfter(node, s, cfg, now));
            && (node == Reporter ==> p == At(CriticFinal))
            && (node == CriticFinal ==> p == Done)
            && (!OnExitPath(node) ==> p != At(CriticFinal))
  {
    hide Blocked, PlanExceedsBudget, NeedsFreshData, ArtifactUnchanged, ProgressStalled;
  }

  lemma StepOnTime(cfg: Settings, c: Config, now: real, v: Visit, start: real, deadline: real)
    requires c.place.At? && c.state.deadline == Some(deadline) && Prompt(cfg, c, now, v)
    requires now <= Latest(cfg, start, deadline, c.place)
    ensures v.routed <= Latest(cfg, start, deadline, Step(cfg, c, v).place)
  {
    var s := Interrupted(c.state, v);
    if OnExitPath(c.place.node) {
      ExitSlice(c.place.node, s, cfg, now, deadline);
    } else if Called(c.place.node, s, cfg, now) {
      WorkerSlice(c.place.node, s, cfg, now, deadline);
    }
    EdgesOfTheExitPath(c.place.node, Step(cfg, c, v).state, cfg, v.routed);
    hide Called, NodeTimeout, RouteAfter, Wrapped;
  }

  /** Wherever a run stands, it stands there in time. */
  lemma {:induction false} RunIsOnTime(cfg: Settings, c: Config, now: real, visits: seq<Visit>, start: real,
                                       deadline: real)
    requires PromptRun(cfg, c, now, visits) && c.state.deadline == Some(deadline)
    requires now <= Latest(cfg, start, deadline, c.place)
    ensures ClockAfter(cfg, c, now, visits) <= Latest(cfg, start, deadline, Run(cfg, c, visits).place)
    decreases |visits|
  {
    if c.place.At? && visits != [] {
      StepOnTime(cfg, c, now, visits[0], start, deadline);
      StepFollows(cfg, c, visits[0]);
      hide Step, Latest;
      RunIsOnTime(cfg, Step(cfg, c, visits[0]), visits[0].routed, visits[1..], start, deadline);
    }
  }

  lemma {:induction false} PromptIsLawful(cfg: Settings, c: Config, now: real, visits: seq<Visit>)
    requires PromptRun(cfg, c, now, visits)
    ensures LawfulRun(cfg, c, now, visits)
    decreases |visits|
  {
    if c.place.At? && visits != [] {
      hide Step, Lawful, Called, NodeTimeout;
      PromptIsLawful(cfg, Step(cfg, c, visits[0]), visits[0].routed, visits[1..]);
    }
  }

  /**
   An investigation started at `start` with nodes that keep to their slices is over, report and final
   pass included, by its deadline plus the one-second floor once and the exit grace twice.
   */
  lemma WallClockBound(cfg: Settings, deadline: real, start: real, visits: seq<Visit>)
    requires PromptRun(cfg, Config(At(Planner), NewState(deadline)), start, visits)
    requires |visits| >= 9 + 5 * cfg.maxRevisions
    ensures var c := Config(At(Planner), NewState(deadline));
            && Run(cfg, c, visits).place.Done?
            && ClockAfter(cfg, c, start, visits) <=
                 Most(start, deadline + 1.0) + 2.0 * Most(1.0, cfg.timeout / 10.0)
  {
    var c := Config(At(Planner), NewState(deadline));
    hide Run, PromptRun, LawfulRun, ClockAfter;
    PromptIsLawful(cfg, c, start, visits);
    Termination(cfg, deadline, start, visits);
    RunIsOnTime(cfg, c, start, visits, start, deadline);
  }
}
