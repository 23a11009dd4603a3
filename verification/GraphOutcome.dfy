/**
 What a run ends as, and what its errors say about it: `completed` is honest as long as the graph is
 the only writer of the status, and not otherwise.
 */
module GraphOutcome {
  import opened Options
  import opened InvestigationState
  import opened Router
  import opened InvestigationGraph
  import opened GraphTermination
  import opened GraphStatus

  // ------------------------------------------------------ completed is honest

  /** What the final pass makes of an unfinished run: `completed` needs everything to be in order. */
  lemma FinalPassCompletesIff(cfg: Settings, c: Config, now: real, v: Visit)
    requires c.place == At(CriticFinal) && !c.state.status.IsTerminal()
    requires Timely(now, v) && OwnStatus(v.outcome).None? && Lawful(CriticFinal, v.outcome)
    ensures var s, s' := Interrupted(c.state, v), Step(cfg, c, v).state;
            s'.status == Completed <==>
              && !v.cancelled
              && CheckGuards(s, cfg, v.entered).None?
              && CheckGuards(s'.(status := s.status), cfg, v.landed).None?
              && s'.report.Some?
              && s'.critique.Some? && s'.critique.value.verdict == Accept
              && forall k :: 0 <= k < |s'.critique.value.findings| ==> s'.critique.value.findings[k].resolved
  {
    if Step(cfg, c, v).state.critique.Some? { CountIsOpenFindings(Step(cfg, c, v).state.critique.value.findings); }
    var s, s' := Interrupted(c.state, v), Step(cfg, c, v).state;
    var t := s'.(status := s.status);
    StatusAfter(cfg, c, v);
    ResourceHaltIsRecoverable(s, cfg, v.entered);
    ResourceHaltIsRecoverable(t, cfg, v.landed);
    assert Follows(s, t) by {
      StepFollows(cfg, c, v);
      hide Wrapped, RouteAfter, CheckGuards;
    }
    GuardLatches(s, t, cfg, v.entered, v.landed);
    assert Blocked(t) == Blocked(s');
    hide Wrapped, CheckGuards, ReportsBlocking, Blocked, Unresolved, Follows;
  }

  /** With quiet nodes, a visit after a guard has fired never ends in `completed`. */
  lemma FiredStepDoesNotComplete(cfg: Settings, c: Config, now: real, v: Visit)
    requires c.place.At? && Lawful(c.place.node, v.outcome) && Timely(now, v) && OwnStatus(v.outcome).None?
    requires CheckGuards(c.state, cfg, now).Some? && c.state.status != Completed
    ensures Step(cfg, c, v).state.status != Completed
    ensures CheckGuards(Step(cfg, c, v).state, cfg, v.routed).Some?
  {
    var s, s' := Interrupted(c.state, v), Step(cfg, c, v).state;
    StepFollows(cfg, c, v);
    GuardLatches(c.state, s, cfg, now, v.entered);
    GuardLatches(c.state, s', cfg, now, v.routed);
    StatusAfter(cfg, c, v);
    if c.place.node == CriticFinal && !s.status.IsTerminal() {
      FinalPassCompletesIff(cfg, c, now, v);
    }
    hide Wrapped, CheckGuards, ReportsBlocking, Blocked, TerminalStatus, Follows;
  }

  /** Once a guard has fired the run never ends as `completed`. */
  lemma {:induction false} GuardedRunNeverCompletes(cfg: Settings, c: Config, now: real, visits: seq<Visit>)
    requires LawfulRun(cfg, c, now, visits) && Quiet(visits)
    requires CheckGuards(c.state, cfg, now).Some? && c.state.status != Completed
    ensures Run(cfg, c, visits).state.status != Completed
    decreases |visits|
  {
    if c.place.At? && visits != [] {
      FiredStepDoesNotComplete(cfg, c, now, visits[0]);
      hide Step, Lawful, CheckGuards;
      GuardedRunNeverCompletes(cfg, Step(cfg, c, visits[0]), visits[0].routed, visits[1..]);
    }
  }

  /** The final pass annotates: the report and the revision counter are the ones it was given. */
  lemma FinalPassOnlyAnnotates(cfg: Settings, c: Config, v: Visit)
    requires c.place == At(CriticFinal)
    ensures var s, s' := c.state, Step(cfg, c, v).state; s'.report == s.report && s'.revisionCount == s.revisionCount
    ensures Step(cfg, c, v).place == Done
  {
    var s := Interrupted(c.state, v);
    StampsOnlyStatus(CriticFinal, Checked(CriticFinal, s, CheckGuards(s, cfg, v.entered), v.outcome), s, cfg, v.landed);
    hide StampStatus, CheckGuards, Called;
  }

  // ------------------------------------------------------------ halt records

  /** Entries of one error type. */
  function Entries(errors: seq<AgentError>, errorType: string): nat
  {
    if errors == [] then 0
    else (if errors[0].errorType == errorType then 1 else 0) + Entries(errors[1..], errorType)
  }

  lemma EntriesOfAppend(xs: seq<AgentError>, ys: seq<AgentError>, errorType: string)
    ensures Entries(xs + ys, errorType) == Entries(xs, errorType) + Entries(ys, errorType)
  {
    if xs != [] {
      assert (xs + ys)[1..] == xs[1..] + ys;
      EntriesOfAppend(xs[1..], ys, errorType);
    } else {
      assert xs + ys == ys;
    }
  }

  lemma {:induction false} EntriesIffRecorded(s: State, errorType: string)
    ensures Entries(s.errors, errorType) > 0 <==> AlreadyRecorded(s, errorType)
    decreases |s.errors|
  {
    if s.errors != [] {
      var t := s.(errors := s.errors[1..]);
      EntriesIffRecorded(t, errorType);
      if AlreadyRecorded(s, errorType) {
        var e :| e in s.errors && e.errorType == errorType;
        assert e == s.errors[0] || e in t.errors;
      }
    }
  }

  /** The errors a called node leaves itself: those it returns, its timeout, or the exception it raised. */
  function OwnErrors(o: Outcome): seq<AgentError>
  {
    match o
    case Returns(d) => if d.errors.Some? then d.errors.value else []
    case TimesOut => [AgentError("timeout", true)]
    case Throws(e) => [e]
  }

  /** What a node itself has to say of an error type. */
  function OwnEntries(o: Outcome, errorType: string): nat
  {
    Entries(OwnErrors(o), errorType)
  }

  /** The errors after a visit: what was there, what a called node said, and the guard's record if new. */
  lemma ErrorsAfter(cfg: Settings, c: Config, v: Visit)
    requires c.place.At?
    ensures var s, h := Interrupted(c.state, v), CheckGuards(Interrupted(c.state, v), cfg, v.entered);
            var own := if Called(c.place.node, s, cfg, v.entered) then OwnErrors(v.outcome) else [];
            var record := if h.Some? && !AlreadyRecorded(s, h.value.reason.Name()) then [HaltError(h.value)] else [];
            Step(cfg, c, v).state.errors == s.errors + (own + record)
  {
    var s := Interrupted(c.state, v);
    var node, h := c.place.node, CheckGuards(s, cfg, v.entered);
    var own := OwnErrors(v.outcome);
    hide CheckGuards, AlreadyRecorded, HaltError, RouteAfter, Interrupted;
    if Called(node, s, cfg, v.entered) {
      var d := Checked(node, s, h, v.outcome);
      assert d.errors == if h.Some? && !AlreadyRecorded(s, h.value.reason.Name()) then Some(own + [HaltError(h.value)])
                         else RawDelta(v.outcome).errors;
      StampsOnlyStatus(node, d, s, cfg, v.landed);
      assert RawDelta(v.outcome).errors == Some(own) || (RawDelta(v.outcome).errors == None && own == []);
      hide Checked, StampStatus, RawDelta, OwnErrors;
      assert own + [] == own && s.errors + [] == s.errors;
    } else {
      assert s.errors + [] == s.errors;
    }
  }

  /** What a called node is charged and what of its answer the run takes over; a skipped one changes none of it. */
  lemma CalledNodeLeaves(cfg: Settings, c: Config, v: Visit)
    requires c.place.At?
    ensures var s, s' := Interrupted(c.state, v), Step(cfg, c, v).state;
            var called := Called(c.place.node, s, cfg, v.entered);
            var d := if called && v.outcome.Returns? then v.outcome.delta else NO_DELTA;
            && s'.stepCount == s.stepCount + (if !called then 0 else if d.stepCount.Some? then d.stepCount.value else 1)
            && s'.tokens == (if d.tokens.Some? then s.tokens.Plus(d.tokens.value) else s.tokens)
            && s'.plan == (if d.plan.Some? then d.plan.value else s.plan)
            && s'.evidence == (if d.evidence.Some? then s.evidence + d.evidence.value else s.evidence)
            && s'.confidence == (if d.confidence.Some? then d.confidence.value else s.confidence)
            && s'.report == (if d.report.Some? && c.place.node != CriticFinal then d.report.value else s.report)
            && s'.critique == (if d.critique.Some? then d.critique.value else s.critique)
            && s'.deadline == s.deadline
  {
    var s, node := Interrupted(c.state, v), c.place.node;
    var h := CheckGuards(s, cfg, v.entered);
    if Called(node, s, cfg, v.entered) {
      var d, raw := Checked(node, s, h, v.outcome), RawDelta(v.outcome);
      StampsOnlyStatus(node, d, s, cfg, v.landed);
      assert && d.stepCount == Some(if raw.stepCount.Some? then raw.stepCount.value else 1)
             && d.tokens == raw.tokens && d.plan == raw.plan && d.evidence == raw.evidence
             && d.confidence == raw.confidence && d.critique == raw.critique
             && d.report == (if node == CriticFinal then None else raw.report) by {
        hide CheckGuards, AlreadyRecorded, HaltError;
      }
      hide Checked, StampStatus, CheckGuards, RouteAfter, Interrupted, Called;
    } else {
      hide CheckGuards, RouteAfter, Interrupted, AlreadyRecorded, HaltError, StampStatus, Checked;
    }
  }

  /** The wrapper adds an entry only to a state that holds none, and only for the guard that fired. */
  lemma StepRecords(cfg: Settings, c: Config, v: Visit, reason: HaltReason)
    requires c.place.At?
    ensures var s, s', name := Interrupted(c.state, v), Step(cfg, c, v).state, reason.Name();
            var own := if Called(c.place.node, s, cfg, v.entered) then OwnEntries(v.outcome, name) else 0;
            var h := CheckGuards(s, cfg, v.entered);
            Entries(s'.errors, name) == Entries(s.errors, name) + own +
              if h.Some? && h.value.reason == reason && Entries(s.errors, name) == 0 then 1 else 0
  {
    hide Step, Called, CheckGuards, AlreadyRecorded, Interrupted, RawDelta;
    var s, name := Interrupted(c.state, v), reason.Name();
    var h := CheckGuards(s, cfg, v.entered);
    var own := if Called(c.place.node, s, cfg, v.entered) then OwnErrors(v.outcome) else [];
    var record := if h.Some? && !AlreadyRecorded(s, h.value.reason.Name()) then [HaltError(h.value)] else [];
    ErrorsAfter(cfg, c, v);
    EntriesOfAppend(s.errors, own + record, name);
    EntriesOfAppend(own, record, name);
    EntriesIffRecorded(s, name);
    if h.Some? {
      NamesDiffer(h.value.reason, reason);
      assert [HaltError(h.value)][1..] == [];
    }
  }

  lemma NamesDiffer(a: HaltReason, b: HaltReason)
    ensures a.Name() == b.Name() <==> a == b
  {
    if a != b { assert |a.Name()| != |b.Name()|; }
  }

  /** A guard that has fired leaves its record, whatever the run goes on to do. */
  lemma FiredGuardIsRecorded(cfg: Settings, c: Config, now: real, visits: seq<Visit>)
    requires LawfulRun(cfg, c, now, visits) && c.place.At? && visits != [] && CheckGuards(c.state, cfg, now).Some?
    ensures var h := CheckGuards(Interrupted(c.state, visits[0]), cfg, visits[0].entered);
            h.Some? && AlreadyRecorded(Run(cfg, c, visits).state, h.value.reason.Name())
  {
    var v := visits[0];
    var s, c' := Interrupted(c.state, v), Step(cfg, c, v);
    StepFollows(cfg, c, v);
    GuardLatches(c.state, s, cfg, now, v.entered);
    var reason := CheckGuards(s, cfg, v.entered).value.reason;
    StepRecords(cfg, c, v, reason);
    EntriesIffRecorded(c'.state, reason.Name());
    ErrorsGrow(cfg, c', v.routed, visits[1..]);
    var e :| e in c'.state.errors && e.errorType == reason.Name();
    PrefixKeeps(c'.state.errors, Run(cfg, c', visits[1..]).state.errors, e);
    hide Step, Lawful, CheckGuards, Interrupted;
  }

  lemma {:induction false} ErrorsGrow(cfg: Settings, c: Config, now: real, visits: seq<Visit>)
    requires LawfulRun(cfg, c, now, visits)
    ensures c.state.errors <= Run(cfg, c, visits).state.errors
    decreases |visits|
  {
    if c.place.At? && visits != [] {
      StepFollows(cfg, c, visits[0]);
      hide Step, Lawful, Interrupted;
      ErrorsGrow(cfg, Step(cfg, c, visits[0]), visits[0].routed, visits[1..]);
    }
  }

  /** What the nodes of a run themselves had to say of an error type. */
  function OwnTotal(cfg: Settings, c: Config, visits: seq<Visit>, errorType: string): nat
    decreases |visits|
  {
    if c.place.Done? || visits == [] then 0
    else
      (if Called(c.place.node, Interrupted(c.state, visits[0]), cfg, visits[0].entered)
       then OwnEntries(visits[0].outcome, errorType) else 0) +
      OwnTotal(cfg, Step(cfg, c, visits[0]), visits[1..], errorType)
  }

  /** Over a whole run the wrapper adds at most one record per reason, and none that is already there. */
  lemma {:induction false} OneRecordPerReason(cfg: Settings, c: Config, visits: seq<Visit>, reason: HaltReason)
    ensures var before := Entries(c.state.errors, reason.Name());
            var after := Entries(Run(cfg, c, visits).state.errors, reason.Name());
            var own := OwnTotal(cfg, c, visits, reason.Name());
            && before + own <= after <= before + own + 1
            && (before > 0 || reason == PlanTooLarge ==> after == before + own)
    decreases |visits|
  {
    if c.place.At? && visits != [] {
      StepRecords(cfg, c, visits[0], reason);
      NeverPlanTooLarge(Interrupted(c.state, visits[0]), cfg, visits[0].entered);
      assert Interrupted(c.state, visits[0]).errors == c.state.errors;
      hide Step, Called, Interrupted, Entries, OwnEntries, CheckGuards;
      OneRecordPerReason(cfg, Step(cfg, c, visits[0]), visits[1..], reason);
    }
  }

  /** No guard ever gives `plan_exceeds_step_budget` as its reason. */
  lemma NeverPlanTooLarge(s: State, cfg: Settings, now: real)
    ensures CheckGuards(s, cfg, now).Some? ==> CheckGuards(s, cfg, now).value.reason != PlanTooLarge
  {
  }

  // ----------------------------------------------------- undisturbed visits

  /** A visit at time zero by a node that answers. */
  function Returning(d: Delta): Visit { Visit(false, 0.0, 0.0, 0.0, Returns(d)) }

  /** An unfinished run with no errors, no tokens spent and time and steps in hand. */
  predicate Clear(s: State, cfg: Settings)
  {
    && s.errors == [] && !s.status.IsTerminal()
    && s.stepCount < cfg.maxSteps && s.deadline == Some(1.0)
    && s.tokens.Total() < cfg.tokenBudget
  }

  lemma ClearGuard(s: State, cfg: Settings)
    requires Clear(s, cfg)
    ensures CheckGuards(s, cfg, 0.0).None? && !Blocked(s)
  {
    assert !Blocked(s);
    hide Blocked;
  }

  /** A visit in which no guard fires and the node says nothing of errors, steps, tokens or status. */
  lemma SmoothStep(cfg: Settings, node: Node, s: State, d: Delta)
    requires Clear(s, cfg)
    requires d.errors.None? && d.status.None? && d.tokens.None? && d.stepCount.None?
    ensures var landed := Apply(s, Checked(node, s, None, Returns(d)));
            var status := if node == CriticFinal then TerminalStatus(landed, cfg, 0.0) else PhaseStatus(node);
            var s' := landed.(status := status);
            Step(cfg, Config(At(node), s), Returning(d)) == Config(PlaceOf(RouteAfter(node, s', cfg, 0.0)), s')
  {
    var c, v := Config(At(node), s), Returning(d);
    var checked := Checked(node, s, None, Returns(d));
    ClearGuard(s, cfg);
    StatusAfter(cfg, c, v);
    StampsOnlyStatus(node, checked, s, cfg, 0.0);
    assert checked.status == None;
    assert Step(cfg, c, v).state == Apply(s, checked).(status := Step(cfg, c, v).state.status) by {
      hide StampStatus, Checked, CheckGuards, RouteAfter, TerminalStatus;
    }
    hide Checked, Wrapped, CheckGuards, RouteAfter, TerminalStatus;
  }

  // ------------------------------------------------------- the oversized plan

  /** A run whose plan was rejected for its size, in which the Report and the final pass find nothing amiss. */
  function OversizedRun(plan: seq<PlanStep>): seq<Visit>
  {
    [Returning(NO_DELTA.(plan := Some(plan))),
     Returning(NO_DELTA.(report := Some(Some(Report("partial"))))),
     Returning(NO_DELTA.(critique := Some(Some(Critique(Accept, None, [], "")))))]
  }

  /** A plan too large for the step budget goes to the Report unrecorded, and can end `completed`. */
  lemma OversizedPlanCanComplete(cfg: Settings, plan: seq<PlanStep>)
    requires cfg.maxSteps > 3 && cfg.tokenBudget > 0 && 1 + |plan| + FIXED_TAIL_STEPS > cfg.maxSteps
    ensures var c, visits := Config(At(Planner), NewState(1.0)), OversizedRun(plan);
            && LawfulRun(cfg, c, 0.0, visits) && Quiet(visits)
            && PlanExceedsBudget(Step(cfg, c, visits[0]).state, cfg)
            && Step(cfg, c, visits[0]).place == At(Reporter)
            && Run(cfg, c, visits).place == Done
            && Run(cfg, c, visits).state.status == Completed
            && Run(cfg, c, visits).state.errors == []
  {
    var visits := OversizedRun(plan);
    var s0 := NewState(1.0);
    var s1 := s0.(plan := plan, stepCount := 1, status := Planning);
    var s2 := s1.(report := Some(Report("partial")), stepCount := 2, status := Running);
    var critique := Critique(Accept, None, [], "");
    var s3 := s2.(critique := Some(critique), stepCount := 3, status := Completed);
    OversizedPlanned(cfg, plan);
    OversizedReported(cfg, s1);
    OversizedChecked(cfg, s2);
    OversizedVisits(plan);
    hide Step, OversizedRun, Lawful, Timely, Quiet;
    RunOfThree(cfg, Config(At(Planner), s0), Config(At(Reporter), s1), Config(At(CriticFinal), s2), Config(Done, s3),
               visits);
  }

  lemma OversizedVisits(plan: seq<PlanStep>)
    ensures var visits := OversizedRun(plan);
            && |visits| == 3 && Quiet(visits)
            && visits[0] == Returning(NO_DELTA.(plan := Some(plan)))
            && visits[1] == Returning(NO_DELTA.(report := Some(Some(Report("partial")))))
            && visits[2] == Returning(NO_DELTA.(critique := Some(Some(Critique(Accept, None, [], "")))))
            && Lawful(Planner, visits[0].outcome) && Lawful(Reporter, visits[1].outcome)
            && Lawful(CriticFinal, visits[2].outcome)
            && forall v :: v in visits ==> Timely(0.0, v) && v.routed == 0.0
  {
  }

  lemma OversizedPlanned(cfg: Settings, plan: seq<PlanStep>)
    requires cfg.maxSteps > 3 && cfg.tokenBudget > 0 && 1 + |plan| + FIXED_TAIL_STEPS > cfg.maxSteps
    ensures var s := NewState(1.0).(plan := plan, stepCount := 1, status := Planning);
            && Step(cfg, Config(At(Planner), NewState(1.0)), Returning(NO_DELTA.(plan := Some(plan)))) ==
                 Config(At(Reporter), s)
            && PlanExceedsBudget(s, cfg)
  {
    SmoothStep(cfg, Planner, NewState(1.0), NO_DELTA.(plan := Some(plan)));
    ClearGuard(NewState(1.0).(plan := plan, stepCount := 1, status := Planning), cfg);
    hide Step, CheckGuards;
  }

  lemma OversizedReported(cfg: Settings, s: State)
    requires Clear(s, cfg) && s.stepCount == 1
    ensures Step(cfg, Config(At(Reporter), s), Returning(NO_DELTA.(report := Some(Some(Report("partial")))))) ==
            Config(At(CriticFinal), s.(report := Some(Report("partial")), stepCount := 2, status := Running))
  {
    SmoothStep(cfg, Reporter, s, NO_DELTA.(report := Some(Some(Report("partial")))));
    hide Step, CheckGuards;
  }

  lemma OversizedChecked(cfg: Settings, s: State)
    requires Clear(s, cfg) && s.stepCount == 2 && cfg.maxSteps > 3 && s.report.Some?
    ensures var critique := Critique(Accept, None, [], "");
            Step(cfg, Config(At(CriticFinal), s), Returning(NO_DELTA.(critique := Some(Some(critique))))) ==
            Config(Done, s.(critique := Some(critique), stepCount := 3, status := Completed))
  {
    var critique := Critique(Accept, None, [], "");
    SmoothStep(cfg, CriticFinal, s, NO_DELTA.(critique := Some(Some(critique))));
    ClearGuard(s.(critique := Some(critique), stepCount := 3), cfg);
    hide Step, CheckGuards;
  }

  lemma RunOfThree(cfg: Settings, c0: Config, c1: Config, c2: Config, c3: Config, visits: seq<Visit>)
    requires |visits| == 3 && c0.place.At? && c1.place.At? && c2.place.At? && c3.place.Done?
    requires Step(cfg, c0, visits[0]) == c1 && Step(cfg, c1, visits[1]) == c2 && Step(cfg, c2, visits[2]) == c3
    ensures Run(cfg, c0, visits) == c3
    ensures (&& Lawful(c0.place.node, visits[0].outcome)
             && Lawful(c1.place.node, visits[1].outcome)
             && Lawful(c2.place.node, visits[2].outcome)
             && forall v :: v in visits ==> Timely(0.0, v) && v.routed == 0.0) ==>
              LawfulRun(cfg, c0, 0.0, visits)
  {
    hide Step, Lawful;
    var rest := visits[1..];
    assert rest[0] == visits[1] && rest[1..][0] == visits[2];
    assert Run(cfg, c2, rest[1..]) == c3;
    assert Run(cfg, c1, rest) == c3;
    if Lawful(c0.place.node, visits[0].outcome) && Lawful(c1.place.node, visits[1].outcome) &&
       Lawful(c2.place.node, visits[2].outcome) && (forall v :: v in visits ==> Timely(0.0, v) && v.routed == 0.0) {
      assert visits[0] in visits && visits[1] in visits && visits[2] in visits;
      assert LawfulRun(cfg, c3, 0.0, rest[1..][1..]);
      assert LawfulRun(cfg, c2, 0.0, rest[1..]);
      assert LawfulRun(cfg, c1, 0.0, rest);
    }
  }

  // -------------------------------------------- when nodes write the status too

  /** Somewhere in the run the Report is called and writes `completed`. */
  predicate ReportCompletes(cfg: Settings, c: Config, visits: seq<Visit>)
    decreases |visits|
  {
    c.place.At? && visits != [] &&
    (var v := visits[0];
     || (c.place.node == Reporter && Called(Reporter, Interrupted(c.state, v), cfg, v.entered) &&
         OwnStatus(v.outcome) == Some(Completed))
     || ReportCompletes(cfg, Step(cfg, c, v), visits[1..]))
  }

  /** The final pass leaves the status to the graph. Any other node may write what it likes. */
  ghost predicate FinalPassIsSilent(cfg: Settings, c: Config, visits: seq<Visit>)
    decreases |visits|
  {
    c.place.Done? || visits == [] ||
    ((c.place.node == CriticFinal ==> OwnStatus(visits[0].outcome).None?) &&
     FinalPassIsSilent(cfg, Step(cfg, c, visits[0]), visits[1..]))
  }

  /** With a guard fired, a visit makes a run `completed` exactly if it is the Report's own doing. */
  lemma FiredStepCompletesIff(cfg: Settings, c: Config, now: real, v: Visit)
    requires c.place.At? && Lawful(c.place.node, v.outcome) && Timely(now, v)
    requires c.place.node == CriticFinal ==> OwnStatus(v.outcome).None?
    requires CheckGuards(c.state, cfg, now).Some? && c.state.status != Completed
    ensures Step(cfg, c, v).state.status == Completed <==>
              c.place.node == Reporter && Called(Reporter, Interrupted(c.state, v), cfg, v.entered) &&
              OwnStatus(v.outcome) == Some(Completed)
    ensures CheckGuards(Step(cfg, c, v).state, cfg, v.routed).Some?
  {
    var s, s' := Interrupted(c.state, v), Step(cfg, c, v).state;
    StepFollows(cfg, c, v);
    GuardLatches(c.state, s, cfg, now, v.entered);
    GuardLatches(c.state, s', cfg, now, v.routed);
    StatusAfter(cfg, c, v);
    if c.place.node == CriticFinal && !s.status.IsTerminal() {
      FinalPassCompletesIff(cfg, c, now, v);
    }
    hide Wrapped, CheckGuards, ReportsBlocking, Blocked, TerminalStatus, Follows;
  }

  /**
   Once a guard has fired, a run, wherever it stands, ends as `completed` exactly if the Report is
   called and writes so itself: the final pass, which would have said otherwise, is then skipped as
   if the run had been cancelled.
   */
  lemma {:induction false} CompletedDespiteGuardIff(cfg: Settings, c: Config, now: real, visits: seq<Visit>)
    requires LawfulRun(cfg, c, now, visits) && FinalPassIsSilent(cfg, c, visits)
    requires CheckGuards(c.state, cfg, now).Some? && c.state.status != Completed
    ensures Run(cfg, c, visits).state.status == Completed <==> ReportCompletes(cfg, c, visits)
    decreases |visits|
  {
    if c.place.At? && visits != [] {
      var c' := Step(cfg, c, visits[0]);
      FiredStepCompletesIff(cfg, c, now, visits[0]);
      hide Step, Lawful, CheckGuards, Called;
      if c'.state.status == Completed {
        CompletedStays(cfg, c', visits[1..]);
      } else {
        CompletedDespiteGuardIff(cfg, c', visits[0].routed, visits[1..]);
      }
    }
  }

  lemma CompletedStays(cfg: Settings, c: Config, visits: seq<Visit>)
    requires c.state.status == Completed
    ensures Run(cfg, c, visits).state.status == Completed
  {
    if c.place.At? && visits != [] { TerminalIsAbsorbing(cfg, c, visits); }
    hide Step;
  }

  lemma RunOfTwo(cfg: Settings, c: Config, v: Visit, w: Visit)
    requires c.place.At? && Step(cfg, c, v).place.At?
    ensures Run(cfg, c, [v, w]) == Step(cfg, Step(cfg, c, v), w)
  {
    hide Step;
    assert [v, w][1..] == [w];
    assert [w][1..] == [];
    assert Run(cfg, Step(cfg, c, v), [w]) == Run(cfg, Step(cfg, Step(cfg, c, v), w), []);
  }

  /** A Report that writes a terminal status settles the run: the final pass only leaves its record. */
  lemma ReportedStatusStands(cfg: Settings, s: State, report: Visit, final: Visit)
    requires Called(Reporter, s, cfg, report.entered) && !report.cancelled
    requires OwnStatus(report.outcome).Some? && OwnStatus(report.outcome).value.IsTerminal()
    ensures var c := Config(At(Reporter), s);
            var reported := Step(cfg, c, report).state;
            && reported.status == OwnStatus(report.outcome).value
            && Run(cfg, c, [report, final]) == Config(Done, Recorded(reported))
  {
    var c := Config(At(Reporter), s);
    var c1 := Step(cfg, c, report);
    StatusAfter(cfg, c, report);
    EdgesFromReport(c1.state, cfg, report.routed);
    StepAbsorbs(cfg, c1, final);
    RunOfTwo(cfg, c, report, final);
    hide Wrapped, CheckGuards, ReportsBlocking, Blocked, Run, Recorded;
  }

  // ------------------------------------------------- critiques without a verdict

  /** A critique payload with no `verdict` key. */
  predicate Unspoken(critique: Option<Critique>) { critique.Some? ==> critique.value.verdict == NoVerdict }

  /** Every critique a node of the run writes lacks a verdict. */
  predicate VerdictFree(visits: seq<Visit>)
  {
    forall v :: v in visits ==>
      (v.outcome.Returns? && v.outcome.delta.critique.Some? ==> Unspoken(v.outcome.delta.critique.value))
  }

  lemma StepUnspoken(cfg: Settings, c: Config, v: Visit)
    requires c.place.At? && Unspoken(c.state.critique) && VerdictFree([v])
    ensures Unspoken(Step(cfg, c, v).state.critique)
    ensures var p := Step(cfg, c, v).place; c.place.node == Critic && p.At? ==> p == At(Reporter)
  {
    var s, s' := Interrupted(c.state, v), Step(cfg, c, v).state;
    assert Unspoken(s'.critique) by {
      hide StampStatus, RouteAfter, CheckGuards, Called;
      assert v in [v];
      var d := Checked(c.place.node, s, CheckGuards(s, cfg, v.entered), v.outcome);
      StampsOnlyStatus(c.place.node, d, s, cfg, v.landed);
    }
    hide Wrapped, CheckGuards, Called, VerdictFree, Interrupted;
    ResourceHaltIsRecoverable(s', cfg, v.routed);
  }

  /** Without verdicts no rewrite is ever dispatched, whoever writes the status. */
  lemma {:induction false} VerdictFreeRunsNeverRewrite(cfg: Settings, c: Config, now: real, visits: seq<Visit>)
    requires LawfulRun(cfg, c, now, visits) && VerdictFree(visits) && Unspoken(c.state.critique)
    ensures VisitsTo(Critic, cfg, c, visits) <= 1
    ensures c.place.At? && OnExitPath(c.place.node) ==> VisitsTo(Critic, cfg, c, visits) == 0
    decreases |visits|
  {
    if c.place.At? && visits != [] {
      var v, c' := visits[0], Step(cfg, c, visits[0]);
      StepUnspoken(cfg, c, v);
      EdgeOutOf(c.place.node, c'.state, cfg, v.routed);
      hide Lawful, Unspoken;
      assert OnExitPath(c.place.node) && c'.place.At? ==> OnExitPath(c'.place.node) by {
        hide Wrapped, CheckGuards, Called, RouteAfter;
      }
      hide Step;
      VerdictFreeRunsNeverRewrite(cfg, c', v.routed, visits[1..]);
    }
  }

  /** Without a verdict the final pass does not say `completed`. */
  lemma UnspokenFinalPassDoesNotComplete(cfg: Settings, c: Config, now: real, v: Visit)
    requires c.place == At(CriticFinal) && c.state.status != Completed && Unspoken(c.state.critique) && VerdictFree([v])
    requires Timely(now, v) && OwnStatus(v.outcome).None? && Lawful(CriticFinal, v.outcome)
    ensures Step(cfg, c, v).state.status != Completed
  {
    StepUnspoken(cfg, c, v);
    StatusAfter(cfg, c, v);
    if !c.state.status.IsTerminal() { FinalPassCompletesIff(cfg, c, now, v); }
    hide Step, CheckGuards, Called, ReportsBlocking, Blocked, TerminalStatus;
  }

  /** The same for any visit of a run as shipped: only the Report completes it. */
  lemma UnspokenStepCompletesIff(cfg: Settings, c: Config, now: real, v: Visit)
    requires c.place.At? && c.state.status != Completed && Unspoken(c.state.critique) && VerdictFree([v])
    requires Timely(now, v) && Lawful(c.place.node, v.outcome) && AsShipped(c.place.node, v.outcome)
    ensures Step(cfg, c, v).state.status == Completed <==>
              c.place.node == Reporter && Called(Reporter, Interrupted(c.state, v), cfg, v.entered) &&
              OwnStatus(v.outcome) == Some(Completed)
  {
    hide Step, CheckGuards, ReportsBlocking, Blocked, TerminalStatus;
    StatusAfter(cfg, c, v);
    if c.place.node == CriticFinal { UnspokenFinalPassDoesNotComplete(cfg, c, now, v); }
    ResourceHaltIsRecoverable(Interrupted(c.state, v), cfg, v.entered);
  }

  /**
   The shipped system, whose Critic writes no verdict: a run ends as `completed` exactly if the Report
   was called and wrote so, whatever the final pass found.
   */
  lemma {:induction false} ShippedRunCompletesIff(cfg: Settings, c: Config, now: real, visits: seq<Visit>)
    requires LawfulRun(cfg, c, now, visits) && ShippedRun(cfg, c, visits) && VerdictFree(visits)
    requires Unspoken(c.state.critique) && c.state.status != Completed
    ensures Run(cfg, c, visits).state.status == Completed <==> ReportCompletes(cfg, c, visits)
    decreases |visits|
  {
    if c.place.At? && visits != [] {
      var v, c' := visits[0], Step(cfg, c, visits[0]);
      StepUnspoken(cfg, c, v);
      UnspokenStepCompletesIff(cfg, c, now, v);
      hide Step, Lawful, CheckGuards, Called, Unspoken, AsShipped;
      if c'.state.status == Completed {
        CompletedStays(cfg, c', visits[1..]);
      } else {
        ShippedRunCompletesIff(cfg, c', v.routed, visits[1..]);
      }
    }
  }
}
