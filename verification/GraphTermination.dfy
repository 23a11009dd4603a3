/**
 Why every investigation ends: the revision cap, and two further brakes each of which is enough on
 its own to bound part of a run.
 */
module GraphTermination {
  import opened Options
  import opened InvestigationState
  import opened Router
  import opened InvestigationGraph
  import StatePreview

  // ---------------------------------------------------------- guards latch

  /** Nothing a guard reads in `s` has been taken back in `s'`. */
  predicate Follows(s: State, s': State)
  {
    && s.errors <= s'.errors
    && s.stepCount <= s'.stepCount
    && s.tokens.Total() <= s'.tokens.Total()
    && s.deadline == s'.deadline
    && (s.status.IsTerminal() ==> s'.status == s.status)
  }

  lemma PrefixKeeps<T>(xs: seq<T>, ys: seq<T>, x: T)
    requires xs <= ys && x in xs
    ensures x in ys
  {
    var k :| 0 <= k < |xs| && xs[k] == x;
    assert ys[k] == x;
  }

  /** A guard that has fired fires in every later state, and one that ended the run still ends it. */
  lemma GuardLatches(s: State, s': State, cfg: Settings, now: real, later: real)
    requires Follows(s, s') && now <= later
    ensures CheckGuards(s, cfg, now).Some? ==>
              var h, h' := CheckGuards(s, cfg, now).value, CheckGuards(s', cfg, later);
              h'.Some? && (h.route == End ==> h'.value.route == End)
  {
    if Blocked(s) {
      var e :| e in s.errors && !e.recoverable;
      PrefixKeeps(s.errors, s'.errors, e);
      assert Blocked(s');
    }
  }

  /** What the wrapper counts is what the node counted, and at least nothing. */
  lemma WrappedCounts(node: Node, s: State, cfg: Settings, entered: real, landed: real, o: Outcome)
    requires Lawful(node, o)
    ensures var d := Wrapped(node, s, cfg, entered, landed, o);
            && (d.stepCount.Some? ==> d.stepCount.value >= 0)
            && (d.tokens.Some? ==> d.tokens.value.Total() >= 0)
            && (s.status.IsTerminal() ==> d.status == Some(s.status))
            && (s.status.IsTerminal() ==> d.stepCount.None? && d.tokens.None?)
  {
    hide StatePreview.Merged;
    if Called(node, s, cfg, entered) {
      var h := CheckGuards(s, cfg, entered);
      var d := Checked(node, s, h, o);
      StampsOnlyStatus(node, d, s, cfg, landed);
      assert d.stepCount == Counted(RawDelta(o)).stepCount && d.tokens == RawDelta(o).tokens by {
        hide CheckGuards, AlreadyRecorded;
      }
      hide StampStatus, Checked, AlreadyRecorded, Blocked;
    } else {
      hide AlreadyRecorded, Blocked, StampStatus, Checked;
    }
  }

  lemma StepFollows(cfg: Settings, c: Config, v: Visit)
    requires c.place.At? && Lawful(c.place.node, v.outcome)
    ensures Follows(c.state, Interrupted(c.state, v))
    ensures Follows(Interrupted(c.state, v), Step(cfg, c, v).state)
    ensures Follows(c.state, Step(cfg, c, v).state)
  {
    var s := Interrupted(c.state, v);
    WrappedCounts(c.place.node, s, cfg, v.entered, v.landed, v.outcome);
    hide Wrapped, RouteAfter;
  }

  /** Once a guard has fired nothing later in the run un-fires it. */
  lemma {:induction false} GuardsStayFired(cfg: Settings, c: Config, now: real, visits: seq<Visit>, end: real)
    requires LawfulRun(cfg, c, now, visits) && CheckGuards(c.state, cfg, now).Some?
    requires now <= end && forall i :: 0 <= i < |visits| ==> visits[i].routed <= end
    ensures Follows(c.state, Run(cfg, c, visits).state)
    ensures CheckGuards(Run(cfg, c, visits).state, cfg, end).Some?
    decreases |visits|
  {
    if c.place.Done? || visits == [] {
      GuardLatches(c.state, c.state, cfg, now, end);
    } else {
      var v, c' := visits[0], Step(cfg, c, visits[0]);
      StepFollows(cfg, c, v);
      GuardLatches(c.state, c'.state, cfg, now, v.routed);
      hide Step, CheckGuards;
      GuardsStayFired(cfg, c', v.routed, visits[1..], end);
    }
  }

  // ------------------------------------------------------------ termination

  /** Whether the run can still come round to the Critic. */
  predicate OnLoop(node: Node) { !OnExitPath(node) }

  /** Rewrites the revision cap still allows, counting the one the standing critique asked for. */
  function RevisionsLeft(cfg: Settings, s: State): nat
  {
    Max(0, cfg.maxRevisions - s.revisionCount - (if WantsRevision(s.critique) then 1 else 0))
  }

  /** Visits from a place to the end of the run when no rewrite happens. */
  function Distance(p: Place): nat
  {
    match p
    case Done => 0
    case At(CriticFinal) => 1
    case At(Reporter) => 2
    case At(Critic) => 3
    case At(Strategy) => 4
    case At(Insight) => 5
    case At(GraphExpansion) => 6
    case At(Retriever) => 7
    case At(Collector) => 8
    case At(Planner) => 9
  }

  /** A bound on the visits still to come; a rewrite costs at most five. */
  function VisitsLeft(cfg: Settings, c: Config): nat
  {
    Distance(c.place) + if c.place.At? && OnLoop(c.place.node) then 5 * RevisionsLeft(cfg, c.state) else 0
  }

  /** A visit touches the standing critique and the counter only at the Critic, and only if called. */
  lemma StepRevisions(cfg: Settings, c: Config, v: Visit)
    requires c.place.At? && Lawful(c.place.node, v.outcome)
    ensures var s, s' := c.state, Step(cfg, c, v).state;
            && (!IsCritic(c.place.node) ==> s'.critique == s.critique && s'.revisionCount == s.revisionCount)
            && (c.place.node == Critic && Called(Critic, Interrupted(s, v), cfg, v.entered) ==>
                  s'.revisionCount ==
                    if s.critique.Some? && s.critique.value.verdict == Revise then Max(0, s.revisionCount + 1)
                    else s.revisionCount)
            && (c.place.node == Critic && !Called(Critic, Interrupted(s, v), cfg, v.entered) ==>
                  s'.critique == s.critique)
  {
    var s := Interrupted(c.state, v);
    var d := Checked(c.place.node, s, CheckGuards(s, cfg, v.entered), v.outcome);
    StampsOnlyStatus(c.place.node, d, s, cfg, v.landed);
    hide StampStatus, RouteAfter, CheckGuards, Called;
  }

  /** A Critic the guard skipped is never re-entered: its edge sees the same guard. */
  lemma SkippedGoesOn(cfg: Settings, c: Config, now: real, v: Visit)
    requires c.place.At? && Lawful(c.place.node, v.outcome) && Timely(now, v)
    requires !Called(c.place.node, Interrupted(c.state, v), cfg, v.entered)
    ensures Step(cfg, c, v).place.Done? || OnExitPath(Step(cfg, c, v).place.node)
  {
    StepFollows(cfg, c, v);
    GuardLatches(Interrupted(c.state, v), Step(cfg, c, v).state, cfg, v.entered, v.routed);
  }

  /** Where the edges lead: one stop further, to the exit path, or, from the Critic, back for a rewrite. */
  lemma EdgeOutOf(node: Node, s: State, cfg: Settings, now: real)
    ensures var p := PlaceOf(RouteAfter(node, s, cfg, now));
            && Distance(p) < Distance(At(node)) + (if node == Critic && p.At? && OnLoop(p.node) then 5 else 0)
            && (OnExitPath(node) ==> p.Done? || OnExitPath(p.node))
            && (node == Critic && p.At? && OnLoop(p.node) ==>
                  WantsRevision(s.critique) && s.revisionCount < cfg.maxRevisions)
  {
    hide Blocked, PlanExceedsBudget, NeedsFreshData, ArtifactUnchanged, ProgressStalled;
  }

  /** Every visit brings the end of the run nearer. */
  lemma StepDescends(cfg: Settings, c: Config, now: real, v: Visit)
    requires c.place.At? && Lawful(c.place.node, v.outcome) && Timely(now, v)
    ensures VisitsLeft(cfg, Step(cfg, c, v)) < VisitsLeft(cfg, c)
  {
    StepRevisions(cfg, c, v);
    if c.place.node == Critic && !Called(Critic, Interrupted(c.state, v), cfg, v.entered) {
      SkippedGoesOn(cfg, c, now, v);
    }
    EdgeOutOf(c.place.node, Step(cfg, c, v).state, cfg, v.routed);
    hide Wrapped, Called, CheckGuards, RouteAfter, Interrupted, Lawful;
  }

  lemma {:induction false} RunEnds(cfg: Settings, c: Config, now: real, visits: seq<Visit>)
    requires LawfulRun(cfg, c, now, visits) && |visits| >= VisitsLeft(cfg, c)
    ensures Run(cfg, c, visits).place.Done?
    decreases |visits|
  {
    hide Step, VisitsLeft;
    if c.place.At? {
      assert visits != [] by { assert VisitsLeft(cfg, c) >= 0; StartsSomewhere(cfg, c); }
      StepDescends(cfg, c, now, visits[0]);
      RunEnds(cfg, Step(cfg, c, visits[0]), visits[0].routed, visits[1..]);
    }
  }

  lemma StartsSomewhere(cfg: Settings, c: Config)
    requires c.place.At?
    ensures VisitsLeft(cfg, c) >= 1
  {
  }

  /** A new investigation is over within nine visits, and five more for each rewrite allowed. */
  lemma Termination(cfg: Settings, deadline: real, now: real, visits: seq<Visit>)
    requires LawfulRun(cfg, Config(At(Planner), NewState(deadline)), now, visits)
    requires |visits| >= 9 + 5 * cfg.maxRevisions
    ensures Run(cfg, Config(At(Planner), NewState(deadline)), visits).place.Done?
  {
    hide Run, LawfulRun;
    RunEnds(cfg, Config(At(Planner), NewState(deadline)), now, visits);
  }

  /** How often a run comes to a node. */
  function VisitsTo(node: Node, cfg: Settings, c: Config, visits: seq<Visit>): nat
    decreases |visits|
  {
    if c.place.Done? || visits == [] then 0
    else (if c.place.node == node then 1 else 0) + VisitsTo(node, cfg, Step(cfg, c, visits[0]), visits[1..])
  }

  /** What a visit leaves of the rewrites: the Critic uses one up or leaves the loop. */
  lemma StepSpendsRevisions(cfg: Settings, c: Config, now: real, v: Visit)
    requires c.place.At? && Lawful(c.place.node, v.outcome) && Timely(now, v)
    ensures var c' := Step(cfg, c, v);
            c'.place.At? && OnLoop(c'.place.node) ==>
              && OnLoop(c.place.node)
              && RevisionsLeft(cfg, c'.state) + (if c.place.node == Critic then 1 else 0) <= RevisionsLeft(cfg, c.state)
  {
    StepRevisions(cfg, c, v);
    if c.place.node == Critic && !Called(Critic, Interrupted(c.state, v), cfg, v.entered) {
      SkippedGoesOn(cfg, c, now, v);
    }
    EdgeOutOf(c.place.node, Step(cfg, c, v).state, cfg, v.routed);
    hide Wrapped, Called, CheckGuards, RouteAfter, Interrupted, Lawful;
  }

  /** The Critic runs at most once more than the rewrites that are left, and never off the loop. */
  lemma {:induction false} CriticVisitsAreBounded(cfg: Settings, c: Config, now: real, visits: seq<Visit>)
    requires LawfulRun(cfg, c, now, visits)
    ensures VisitsTo(Critic, cfg, c, visits) <=
            if c.place.At? && OnLoop(c.place.node) then RevisionsLeft(cfg, c.state) + 1 else 0
    decreases |visits|
  {
    if c.place.At? && visits != [] {
      var c' := Step(cfg, c, visits[0]);
      StepSpendsRevisions(cfg, c, now, visits[0]);
      hide Step, RevisionsLeft;
      CriticVisitsAreBounded(cfg, c', visits[0].routed, visits[1..]);
    }
  }

  lemma CriticRunsAtMostOncePerRevision(cfg: Settings, deadline: real, now: real, visits: seq<Visit>)
    requires LawfulRun(cfg, Config(At(Planner), NewState(deadline)), now, visits)
    ensures VisitsTo(Critic, cfg, Config(At(Planner), NewState(deadline)), visits) <= cfg.maxRevisions + 1
  {
    hide VisitsTo, LawfulRun;
    CriticVisitsAreBounded(cfg, Config(At(Planner), NewState(deadline)), now, visits);
  }
}
