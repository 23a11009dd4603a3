/**
 The status a run carries: it is terminal at the end, nothing changes after it is terminal, and its
 changes are the ones `VALID_TRANSITIONS` allows, except in the cases named here.
 */
module GraphStatus {
  import opened Options
  import opened InvestigationState
  import opened Router
  import opened InvestigationGraph
  import opened GraphTermination
  import StatePreview

  // --------------------------------------------------------- what a visit stamps

  /** The status a called node writes itself. */
  function OwnStatus(o: Outcome): Option<Status> { if o.Returns? then o.delta.status else None }

  /** The node reports a failure the run cannot go on from. */
  predicate ReportsBlocking(o: Outcome)
  {
    match o
    case Returns(d) => d.errors.Some? && exists e :: e in d.errors.value && !e.recoverable
    case TimesOut => false
    case Throws(e) => !e.recoverable
  }

  lemma ResourceHaltIsRecoverable(s: State, cfg: Settings, now: real)
    ensures var h := CheckGuards(s, cfg, now);
            h.Some? ==> && (h.value.route != End ==> HaltError(h.value).recoverable && h.value.route == To(Reporter))
                        && (h.value.route == End <==> s.status.IsTerminal() || Blocked(s))
                        && (h.value.route == End ==>
                              h.value.status == if s.status.IsTerminal() then s.status else Failed)
    ensures (s.status.IsTerminal() || Blocked(s)) ==> CheckGuards(s, cfg, now).Some?
  {
    hide Blocked;
  }

  lemma AppendBlocks(xs: seq<AgentError>, ys: seq<AgentError>)
    ensures (exists e :: e in xs + ys && !e.recoverable) <==>
              (exists e :: e in xs && !e.recoverable) || (exists e :: e in ys && !e.recoverable)
  {
    if e :| e in xs && !e.recoverable { assert e in xs + ys; }
    if e :| e in ys && !e.recoverable { assert e in xs + ys; }
  }

  /** After a called node the run is blocked exactly if the node said so. */
  lemma CalledBlocks(node: Node, s: State, cfg: Settings, entered: real, o: Outcome)
    requires Called(node, s, cfg, entered)
    ensures Blocked(Apply(s, Checked(node, s, CheckGuards(s, cfg, entered), o))) <==> ReportsBlocking(o)
    ensures !Blocked(s) && !s.status.IsTerminal()
  {
    var h := CheckGuards(s, cfg, entered);
    ResourceHaltIsRecoverable(s, cfg, entered);
    var own := Replace([], RawDelta(o).errors);
    assert ReportsBlocking(o) <==> exists e :: e in own && !e.recoverable by {
      if o.Throws? { assert own == [o.error] && o.error in own; }
    }
    var d := Checked(node, s, h, o);
    assert d.errors == RawDelta(o).errors || (h.Some? && d.errors == Some(own + [HaltError(h.value)])) by {
      hide CheckGuards, HaltError, AlreadyRecorded;
    }
    AppendBlocks(s.errors, own);
    if h.Some? {
      AppendBlocks(own, [HaltError(h.value)]);
      AppendBlocks(s.errors, own + [HaltError(h.value)]);
    }
    assert s.errors + [] == s.errors;
    hide CheckGuards, HaltError, Checked;
  }

  /**
   The status after a visit, in full: a skipped node keeps it unless the run ends there, a node that
   wrote one is believed, and otherwise the graph decides.
   */
  lemma StatusAfter(cfg: Settings, c: Config, v: Visit)
    requires c.place.At?
    ensures var s, s' := Interrupted(c.state, v), Step(cfg, c, v).state;
            && (s.status.IsTerminal() ==> s'.status == s.status)
            && (!s.status.IsTerminal() && Blocked(s) ==> s'.status == Failed)
            && (!s.status.IsTerminal() && !Blocked(s) && !Called(c.place.node, s, cfg, v.entered) ==>
                  s'.status == s.status && !Blocked(s'))
            && (Called(c.place.node, s, cfg, v.entered) ==>
                  && (Blocked(s') <==> ReportsBlocking(v.outcome))
                  && (OwnStatus(v.outcome).Some? ==> s'.status == OwnStatus(v.outcome).value)
                  && (OwnStatus(v.outcome).None? && ReportsBlocking(v.outcome) ==> s'.status == Failed)
                  && (OwnStatus(v.outcome).None? && !ReportsBlocking(v.outcome) ==>
                        s'.status ==
                          if c.place.node == CriticFinal then TerminalStatus(s'.(status := s.status), cfg, v.landed)
                          else if c.place.node == Planner then Planning
                          else if c.place.node == Critic then Reflecting
                          else Running))
  {
    var s := Interrupted(c.state, v);
    var node := c.place.node;
    ResourceHaltIsRecoverable(s, cfg, v.entered);
    if Called(node, s, cfg, v.entered) {
      CalledStatus(node, s, cfg, v.entered, v.landed, v.outcome);
    } else {
      SkippedStatus(node, s, cfg, v.entered, v.landed, v.outcome);
    }
    hide Wrapped, Called, CheckGuards, TerminalStatus, ReportsBlocking;
  }

  lemma SkippedStatus(node: Node, s: State, cfg: Settings, entered: real, landed: real, o: Outcome)
    requires !Called(node, s, cfg, entered)
    ensures var s' := Apply(s, Wrapped(node, s, cfg, entered, landed, o));
            && (s.status.IsTerminal() ==> s'.status == s.status)
            && (!s.status.IsTerminal() && Blocked(s) ==> s'.status == Failed)
            && (!s.status.IsTerminal() && !Blocked(s) ==> s'.status == s.status && !Blocked(s'))
  {
    ResourceHaltIsRecoverable(s, cfg, entered);
    var h := CheckGuards(s, cfg, entered).value;
    AppendBlocks(s.errors, [HaltError(h)]);
    hide CheckGuards, HaltError;
  }

  lemma CalledStatus(node: Node, s: State, cfg: Settings, entered: real, landed: real, o: Outcome)
    requires Called(node, s, cfg, entered)
    ensures var s' := Apply(s, Wrapped(node, s, cfg, entered, landed, o));
            && (Blocked(s') <==> ReportsBlocking(o))
            && (OwnStatus(o).Some? ==> s'.status == OwnStatus(o).value)
            && (OwnStatus(o).None? && ReportsBlocking(o) ==> s'.status == Failed)
            && (OwnStatus(o).None? && !ReportsBlocking(o) ==>
                  s'.status == if node == CriticFinal then TerminalStatus(s'.(status := s.status), cfg, landed)
                               else PhaseStatus(node))
  {
    hide StatePreview.Merged;
    var h := CheckGuards(s, cfg, entered);
    CalledBlocks(node, s, cfg, entered, o);
    var d := Checked(node, s, h, o);
    StampsOnlyStatus(node, d, s, cfg, landed);
    StampSeesTheNextState(s, d, cfg, landed, node);
    ResourceHaltIsRecoverable(Apply(s, d), cfg, landed);
    assert d.status == OwnStatus(o) by { hide CheckGuards, HaltError, AlreadyRecorded; }
    hide Checked, CheckGuards, Called;
  }

  // --------------------------------------------------------- the end is terminal

  lemma FinalStatusIsTerminal(s: State, cfg: Settings, now: real)
    ensures TerminalStatus(s, cfg, now).IsTerminal()
  {
    hide Blocked, CheckGuards, Unresolved;
  }

  /** The node leaves the run open: it writes a status that is not terminal. */
  predicate WritesOpenStatus(o: Outcome) { OwnStatus(o).Some? && !OwnStatus(o).value.IsTerminal() }

  /** The visit that ends a run leaves it terminal, unless the node it called wrote otherwise. */
  lemma LastVisitCloses(cfg: Settings, c: Config, now: real, v: Visit)
    requires c.place.At? && Timely(now, v) && Step(cfg, c, v).place.Done?
    ensures Step(cfg, c, v).state.status.IsTerminal() <==>
              !(WritesOpenStatus(v.outcome) && Called(c.place.node, Interrupted(c.state, v), cfg, v.entered))
  {
    var s, s' := Interrupted(c.state, v), Step(cfg, c, v).state;
    StatusAfter(cfg, c, v);
    FinalStatusIsTerminal(s'.(status := s.status), cfg, v.landed);
    ResourceHaltIsRecoverable(s, cfg, v.entered);
    ResourceHaltIsRecoverable(s', cfg, v.routed);
    EndsOnlyAtTheEnd(c.place.node, s', cfg, v.routed);
    hide Wrapped, CheckGuards, TerminalStatus, ReportsBlocking, RouteAfter, Blocked;
  }

  /** An edge leads to the end exactly from the final pass, and from a worker whose run has ended. */
  lemma EndsOnlyAtTheEnd(node: Node, s: State, cfg: Settings, now: real)
    ensures PlaceOf(RouteAfter(node, s, cfg, now)).Done? <==>
              node == CriticFinal || (node != Reporter && (s.status.IsTerminal() || Blocked(s)))
  {
    ResourceHaltIsRecoverable(s, cfg, now);
    hide CheckGuards, Blocked, PlanExceedsBudget, NeedsFreshData, ArtifactUnchanged, ProgressStalled;
  }

  /** The run reaches its end with a called node writing a status that is not terminal. */
  predicate EndsOpen(cfg: Settings, c: Config, visits: seq<Visit>)
    decreases |visits|
  {
    c.place.At? && visits != [] &&
    (var v, c' := visits[0], Step(cfg, c, visits[0]);
     if c'.place.Done? then WritesOpenStatus(v.outcome) && Called(c.place.node, Interrupted(c.state, v), cfg, v.entered)
     else EndsOpen(cfg, c', visits[1..]))
  }

  /** Every run that reaches its end carries a terminal status, unless its last node wrote otherwise. */
  lemma {:induction false} EndIsTerminalIff(cfg: Settings, c: Config, now: real, visits: seq<Visit>)
    requires LawfulRun(cfg, c, now, visits) && c.place.At?
    ensures Run(cfg, c, visits).place.Done? ==>
              (Run(cfg, c, visits).state.status.IsTerminal() <==> !EndsOpen(cfg, c, visits))
    decreases |visits|
  {
    if visits != [] {
      var v, c' := visits[0], Step(cfg, c, visits[0]);
      if c'.place.Done? {
        LastVisitCloses(cfg, c, now, v);
        hide Step, Lawful, Called;
      } else {
        hide Step, Lawful, Called;
        EndIsTerminalIff(cfg, c', v.routed, visits[1..]);
      }
    }
  }

  // ------------------------------------------------------- terminal is absorbing

  /** What a finished run looks like once a skipped node has recorded, once, that it was over. */
  function Recorded(s: State): State
  {
    if AlreadyRecorded(s, "cancelled") then s
    else s.(errors := s.errors + [AgentError("cancelled", s.status != Failed)])
  }

  lemma RecordedOnce(s: State)
    ensures AlreadyRecorded(Recorded(s), "cancelled") && Recorded(Recorded(s)) == Recorded(s)
  {
    if !AlreadyRecorded(s, "cancelled") {
      var e := AgentError("cancelled", s.status != Failed);
      assert e in s.errors + [e];
    }
  }

  lemma StepAbsorbs(cfg: Settings, c: Config, v: Visit)
    requires c.place.At? && c.state.status.IsTerminal()
    ensures Step(cfg, c, v) == Config(if c.place.node == Reporter then At(CriticFinal) else Done, Recorded(c.state))
  {
    EndsOnlyAtTheEnd(c.place.node, Step(cfg, c, v).state, cfg, v.routed);
    assert c.state.errors + [] == c.state.errors;
  }

  /**
   A terminal status is absorbing: whatever the nodes would have returned, a finished run changes in
   nothing but the one record, and is at its end after two visits. The table of transitions agrees.
   */
  lemma {:induction false} TerminalIsAbsorbing(cfg: Settings, c: Config, visits: seq<Visit>)
    requires c.place.At? && c.state.status.IsTerminal() && visits != []
    ensures Run(cfg, c, visits).state == Recorded(c.state)
    ensures |visits| >= 2 || c.place.node != Reporter ==> Run(cfg, c, visits).place.Done?
    ensures forall st :: CanTransition(c.state.status, st) <==> st == c.state.status
    decreases |visits|
  {
    StepAbsorbs(cfg, c, visits[0]);
    RecordedOnce(c.state);
    var c', rest := Step(cfg, c, visits[0]), visits[1..];
    hide Step, Recorded;
    if c'.place.At? && rest != [] {
      TerminalIsAbsorbing(cfg, c', rest);
    }
  }

  // ------------------------------------------------------------ legal transitions

  /** No node of the run writes a status, which is what the graph assumes of them. */
  predicate Quiet(visits: seq<Visit>)
  {
    forall v :: v in visits ==> OwnStatus(v.outcome).None?
  }

  /** Every change of status in the run, cancellations included, is a legal transition. */
  ghost predicate AllLegal(cfg: Settings, c: Config, visits: seq<Visit>)
    decreases |visits|
  {
    c.place.Done? || visits == [] ||
    (var s, c' := Interrupted(c.state, visits[0]), Step(cfg, c, visits[0]);
     && CanTransition(c.state.status, s.status)
     && CanTransition(s.status, c'.state.status)
     && AllLegal(cfg, c', visits[1..]))
  }

  /**
   Who writes a status in the shipped system: the Planner may write `running`, the Report may write a
   terminal status, and nobody else writes any. Either may also be silent, as when it fails.
   */
  predicate AsShipped(node: Node, o: Outcome)
  {
    OwnStatus(o).None? ||
    (node == Planner && OwnStatus(o).value == Running) ||
    (node == Reporter && OwnStatus(o).value.IsTerminal())
  }

  ghost predicate ShippedRun(cfg: Settings, c: Config, visits: seq<Visit>)
    decreases |visits|
  {
    c.place.Done? || visits == [] ||
    (AsShipped(c.place.node, visits[0].outcome) && ShippedRun(cfg, Step(cfg, c, visits[0]), visits[1..]))
  }

  /** The statuses a run can carry on entry to a node once its Planner has run. */
  predicate Fits(p: Place, st: Status)
  {
    st.IsTerminal() ||
    match p
    case At(Planner) => false
    case At(Collector) => st == Planning || st == Running
    case At(Retriever) => st == Planning || st == Running || st == Reflecting
    case At(GraphExpansion) => st == Running
    case At(Critic) => st == Running
    case At(Insight) => st == Running || st == Reflecting
    case At(Strategy) => st == Running || st == Reflecting
    case At(Reporter) => st == Planning || st == Running || st == Reflecting
    case At(CriticFinal) => st == Running
    case Done => true
  }

  /** The Report declares success for a run that is still planning. */
  predicate Rushes(cfg: Settings, c: Config, v: Visit)
  {
    && c.place == At(Reporter) && c.state.status == Planning
    && Called(Reporter, Interrupted(c.state, v), cfg, v.entered)
    && (OwnStatus(v.outcome) == Some(Completed) || OwnStatus(v.outcome) == Some(CompletedWithFindings))
  }

  /** Somewhere in the run the Report rushes. */
  predicate Rushed(cfg: Settings, c: Config, visits: seq<Visit>)
    decreases |visits|
  {
    c.place.At? && visits != [] &&
    (Rushes(cfg, c, visits[0]) || Rushed(cfg, Step(cfg, c, visits[0]), visits[1..]))
  }

  /** A visit that calls its node, from a fitting status. */
  lemma CalledStepFits(cfg: Settings, c: Config, now: real, v: Visit)
    requires c.place.At? && Fits(c.place, c.state.status) && Timely(now, v) && AsShipped(c.place.node, v.outcome)
    requires Called(c.place.node, Interrupted(c.state, v), cfg, v.entered)
    ensures var s, c' := Interrupted(c.state, v), Step(cfg, c, v);
            && s == c.state
            && (CanTransition(s.status, c'.state.status) <==> !Rushes(cfg, c, v))
            && Fits(c'.place, c'.state.status)
            && (c'.place.At? ==> c'.state.status != Planning)
  {
    hide Step, Called, CheckGuards, TerminalStatus, ReportsBlocking, Blocked, RouteAfter;
    var s, c' := Interrupted(c.state, v), Step(cfg, c, v);
    StatusAfter(cfg, c, v);
    FinalStatusIsTerminal(c'.state.(status := s.status), cfg, v.landed);
    EndsOnlyAtTheEnd(c.place.node, c'.state, cfg, v.routed);
    EdgeTargets(c.place.node, c'.state, cfg, v.routed);
    CalledIsOpen(c.place.node, s, cfg, v.entered);
    StepTakesTheEdge(cfg, c, v);
  }

  lemma CalledIsOpen(node: Node, s: State, cfg: Settings, now: real)
    requires Called(node, s, cfg, now)
    ensures !Blocked(s) && !s.status.IsTerminal()
  {
    ResourceHaltIsRecoverable(s, cfg, now);
    hide CheckGuards, Blocked;
  }

  lemma StepTakesTheEdge(cfg: Settings, c: Config, v: Visit)
    requires c.place.At?
    ensures var c' := Step(cfg, c, v); c'.place == PlaceOf(RouteAfter(c.place.node, c'.state, cfg, v.routed))
  {
    hide Wrapped, RouteAfter;
  }

  /** A visit that skips its node, from a fitting status. */
  lemma SkippedStepFits(cfg: Settings, c: Config, now: real, v: Visit)
    requires c.place.At? && Fits(c.place, c.state.status) && Timely(now, v)
    requires !Called(c.place.node, Interrupted(c.state, v), cfg, v.entered)
    ensures var s, c' := Interrupted(c.state, v), Step(cfg, c, v);
            && CanTransition(c.state.status, s.status)
            && CanTransition(s.status, c'.state.status)
            && Fits(c'.place, c'.state.status)
            && (c'.place.At? && c'.state.status == Planning ==> c.state.status == Planning)
  {
    StatusAfter(cfg, c, v);
    SkippedToReport(cfg, c, now, v);
    hide Step, Called, CheckGuards, TerminalStatus, ReportsBlocking, Blocked;
  }

  /** From a fitting status a visit is legal unless the Report rushes, and leaves a fitting status. */
  lemma StepFits(cfg: Settings, c: Config, now: real, v: Visit)
    requires c.place.At? && Fits(c.place, c.state.status) && Timely(now, v) && AsShipped(c.place.node, v.outcome)
    ensures var s, c' := Interrupted(c.state, v), Step(cfg, c, v);
            && CanTransition(c.state.status, s.status)
            && (CanTransition(s.status, c'.state.status) <==> !Rushes(cfg, c, v))
            && Fits(c'.place, c'.state.status)
            && (c'.place.At? && c'.state.status == Planning ==> c.state.status == Planning)
  {
    hide Step, Called, CanTransition, Fits, AsShipped;
    if Called(c.place.node, Interrupted(c.state, v), cfg, v.entered) {
      CalledStepFits(cfg, c, now, v);
      assert CanTransition(c.state.status, c.state.status) by { StayingIsLegal(c.state.status); }
    } else {
      SkippedStepFits(cfg, c, now, v);
    }
  }

  lemma StayingIsLegal(st: Status)
    ensures CanTransition(st, st)
  {
  }

  /** Where each edge can lead besides the end. */
  lemma EdgeTargets(node: Node, s: State, cfg: Settings, now: real)
    ensures var p := PlaceOf(RouteAfter(node, s, cfg, now));
            p.At? && p != At(Reporter) ==>
              match node
              case Planner => p == At(Collector) || p == At(Retriever)
              case Collector => p == At(Retriever)
              case Retriever => p == At(GraphExpansion)
              case GraphExpansion => p == At(Insight)
              case Insight => p == At(Strategy)
              case Strategy => p == At(Critic)
              case Critic => p == At(Retriever) || p == At(Insight) || p == At(Strategy)
              case Reporter => p == At(CriticFinal)
              case CriticFinal => false
  {
    ResourceHaltIsRecoverable(s, cfg, now);
    hide CheckGuards, Blocked, PlanExceedsBudget, NeedsFreshData, ArtifactUnchanged, ProgressStalled;
  }

  /** A skipped node is followed by the Report, or by the end. */
  lemma SkippedToReport(cfg: Settings, c: Config, now: real, v: Visit)
    requires c.place.At? && Timely(now, v) && !Called(c.place.node, Interrupted(c.state, v), cfg, v.entered)
    ensures var p := Step(cfg, c, v).place;
            p.Done? || p == At(Reporter) || (c.place.node == Reporter && Step(cfg, c, v).state.status.IsTerminal())
  {
    var s, s' := Interrupted(c.state, v), Step(cfg, c, v).state;
    assert Follows(s, s') by {
      WrappedCounts(c.place.node, s, cfg, v.entered, v.landed, TimesOut);
      hide CheckGuards, HaltError;
    }
    GuardLatches(s, s', cfg, v.entered, v.routed);
    ResourceHaltIsRecoverable(s', cfg, v.routed);
    ResourceHaltIsRecoverable(s, cfg, v.entered);
    StatusAfter(cfg, c, v);
    hide Wrapped, CheckGuards, HaltError, Blocked, Follows;
  }

  /** Once the Planner has run, a run as shipped is legal exactly if the Report never rushes. */
  lemma {:induction false} FittingRunsAreLegalIff(cfg: Settings, c: Config, now: real, visits: seq<Visit>)
    requires Fits(c.place, c.state.status) && LawfulRun(cfg, c, now, visits) && ShippedRun(cfg, c, visits)
    ensures AllLegal(cfg, c, visits) <==> !Rushed(cfg, c, visits)
    decreases |visits|
  {
    if c.place.At? && visits != [] {
      StepFits(cfg, c, now, visits[0]);
      hide Step, Lawful, Fits, CanTransition, Rushes, AsShipped;
      FittingRunsAreLegalIff(cfg, Step(cfg, c, visits[0]), visits[0].routed, visits[1..]);
    }
  }

  /** A run that is past planning is never rushed. */
  lemma {:induction false} PastPlanningNeverRushes(cfg: Settings, c: Config, now: real, visits: seq<Visit>)
    requires Fits(c.place, c.state.status) && LawfulRun(cfg, c, now, visits) && ShippedRun(cfg, c, visits)
    requires c.place.Done? || c.state.status != Planning
    ensures !Rushed(cfg, c, visits)
    decreases |visits|
  {
    if c.place.At? && visits != [] {
      StepFits(cfg, c, now, visits[0]);
      hide Step, Lawful, Fits, CanTransition, AsShipped;
      PastPlanningNeverRushes(cfg, Step(cfg, c, visits[0]), visits[0].routed, visits[1..]);
    }
  }

  /** The Planner is called on the first visit. */
  predicate PlannerRuns(cfg: Settings, s: State, visits: seq<Visit>)
  {
    visits != [] && Called(Planner, Interrupted(s, visits[0]), cfg, visits[0].entered)
  }

  /** What a called Report makes of a run still queued is a failure or a cancellation. */
  predicate GivesUp(o: Outcome)
  {
    match OwnStatus(o)
    case None => ReportsBlocking(o)
    case Some(st) => st == Failed || st == Cancelled
  }

  /** A resource limit was already spent when the run was picked up, and the Report shipped all the same. */
  predicate ShipsUnplanned(cfg: Settings, s: State, visits: seq<Visit>)
  {
    && |visits| >= 2
    && !PlannerRuns(cfg, s, visits)
    && CheckGuards(Interrupted(s, visits[0]), cfg, visits[0].entered).value.route == To(Reporter)
    && !visits[1].cancelled
    && !GivesUp(visits[1].outcome)
  }

  /** The one visit to the Planner, from either of the statuses a run is started in. */
  lemma PlannerVisit(cfg: Settings, s: State, now: real, v: Visit)
    requires (s.status == Queued || s.status == Running) && Timely(now, v) && AsShipped(Planner, v.outcome)
    ensures var c, s0 := Config(At(Planner), s), Interrupted(s, v);
            var c', h := Step(cfg, c, v), CheckGuards(s0, cfg, v.entered);
            && CanTransition(s.status, s0.status)
            && (Called(Planner, s0, cfg, v.entered) ==>
                  && s0 == s
                  && Fits(c'.place, c'.state.status)
                  && c'.state.status == if OwnStatus(v.outcome).Some? then Running
                                        else if ReportsBlocking(v.outcome) then Failed
                                        else Planning)
            && (!Called(Planner, s0, cfg, v.entered) && h.value.route == End ==>
                  c'.place == Done && CanTransition(s0.status, c'.state.status))
            && (!Called(Planner, s0, cfg, v.entered) && h.value.route != End ==>
                  c'.place == At(Reporter) && c'.state.status == s.status && s0 == s)
  {
    hide Step, Called, CheckGuards, TerminalStatus, ReportsBlocking, RouteAfter, Blocked;
    var c, s0 := Config(At(Planner), s), Interrupted(s, v);
    var c' := Step(cfg, c, v);
    StatusAfter(cfg, c, v);
    ResourceHaltIsRecoverable(s0, cfg, v.entered);
    EndsOnlyAtTheEnd(Planner, c'.state, cfg, v.routed);
    EdgeTargets(Planner, c'.state, cfg, v.routed);
    StepTakesTheEdge(cfg, c, v);
    SkippedIsHalted(Planner, s0, cfg, v.entered);
    if Called(Planner, s0, cfg, v.entered) {
      CalledIsOpen(Planner, s0, cfg, v.entered);
    } else {
      SkippedToReport(cfg, c, now, v);
    }
  }

  /**
   A run as shipped, picked up from the queue, makes only legal transitions exactly if the Planner, when
   called, leaves the status alone, the run does not ship unplanned, and the Report does not rush. The
   shipped Planner does write `running` whenever it succeeds.
   */
  lemma LegalFromQueuedIff(cfg: Settings, s: State, now: real, visits: seq<Visit>)
    requires s.status == Queued && LawfulRun(cfg, Config(At(Planner), s), now, visits)
    requires ShippedRun(cfg, Config(At(Planner), s), visits)
    ensures AllLegal(cfg, Config(At(Planner), s), visits) <==>
              && !(PlannerRuns(cfg, s, visits) && OwnStatus(visits[0].outcome).Some?)
              && !ShipsUnplanned(cfg, s, visits)
              && !Rushed(cfg, Config(At(Planner), s), visits)
  {
    hide Step, Called, CheckGuards, Lawful, ReportsBlocking, Interrupted, Timely;
    if visits != [] {
      var c, v := Config(At(Planner), s), visits[0];
      var c' := Step(cfg, c, v);
      PlannerVisit(cfg, s, now, v);
      if PlannerRuns(cfg, s, visits) {
        hide Fits;
        FittingRunsAreLegalIff(cfg, c', v.routed, visits[1..]);
      } else if c'.place == At(Reporter) && |visits| >= 2 {
        assert !Blocked(c'.state) by { SkippedIsNotBlocked(cfg, c, v); }
        ResourceHaltIsRecoverable(Interrupted(s, v), cfg, v.entered);
        assert !PlannerRuns(cfg, s, visits) ==> CheckGuards(Interrupted(s, v), cfg, v.entered).Some? by {
          SkippedIsHalted(Planner, Interrupted(s, v), cfg, v.entered);
        }
        hide Fits, GivesUp, Blocked;
        assert visits[1..] == [visits[1]] + visits[2..];
        ReportAfterQueued(cfg, c', v.routed, visits[1], visits[2..]);
      } else {
        hide Fits;
      }
    }
  }

  lemma SkippedIsHalted(node: Node, s: State, cfg: Settings, now: real)
    ensures !Called(node, s, cfg, now) ==> CheckGuards(s, cfg, now).Some?
  {
    hide CheckGuards;
  }

  lemma SkippedIsNotBlocked(cfg: Settings, c: Config, v: Visit)
    requires c.place == At(Planner) && !Called(Planner, Interrupted(c.state, v), cfg, v.entered)
    requires Step(cfg, c, v).place == At(Reporter)
    ensures !Blocked(Step(cfg, c, v).state)
  {
    StatusAfter(cfg, c, v);
    ResourceHaltIsRecoverable(Interrupted(c.state, v), cfg, v.entered);
    EndsOnlyAtTheEnd(Planner, Step(cfg, c, v).state, cfg, v.routed);
    hide Wrapped, CheckGuards, RouteAfter, Blocked;
  }

  /** The Report of a run still queued: its stamp is illegal unless it gives up, or is cancelled first. */
  lemma ReportAfterQueued(cfg: Settings, c: Config, now: real, v: Visit, rest: seq<Visit>)
    requires c.place == At(Reporter) && c.state.status == Queued && !Blocked(c.state)
    requires LawfulRun(cfg, c, now, [v] + rest) && ShippedRun(cfg, c, [v] + rest)
    ensures AllLegal(cfg, c, [v] + rest) <==> v.cancelled || GivesUp(v.outcome)
    ensures !Rushed(cfg, c, [v] + rest)
  {
    var c' := Step(cfg, c, v);
    assert ([v] + rest)[0] == v && ([v] + rest)[1..] == rest;
    StatusAfter(cfg, c, v);
    ResourceHaltIsRecoverable(Interrupted(c.state, v), cfg, v.entered);
    EdgesFromReport(c'.state, cfg, v.routed);
    assert Fits(c'.place, c'.state.status) && c'.state.status != Planning by {
      hide Wrapped, CheckGuards, TerminalStatus, ReportsBlocking, Blocked;
    }
    PastPlanningNeverRushes(cfg, c', v.routed, rest);
    FittingRunsAreLegalIff(cfg, c', v.routed, rest);
    hide Wrapped, CheckGuards, TerminalStatus, ReportsBlocking, Blocked, Lawful, Fits;
  }

  lemma EdgesFromReport(s: State, cfg: Settings, now: real)
    ensures PlaceOf(RouteAfter(Reporter, s, cfg, now)) == At(CriticFinal)
  {
  }

  /** The node neither blocks the run nor writes a status, so the graph stamps its phase. */
  predicate LeavesStatusToTheGraph(o: Outcome) { !ReportsBlocking(o) && OwnStatus(o).None? }

  /** The first visit of a run that is already `running`. */
  lemma PlannerVisitWhileRunning(cfg: Settings, s: State, now: real, v: Visit)
    requires s.status == Running && Timely(now, v) && AsShipped(Planner, v.outcome)
    ensures var s0, c' := Interrupted(s, v), Step(cfg, Config(At(Planner), s), v);
            var stamped := Called(Planner, s0, cfg, v.entered) && LeavesStatusToTheGraph(v.outcome);
            && CanTransition(s.status, s0.status)
            && (CanTransition(s0.status, c'.state.status) <==> !stamped)
            && (!stamped ==> Fits(c'.place, c'.state.status) && (c'.place.Done? || c'.state.status != Planning))
  {
    PlannerVisit(cfg, s, now, v);
    hide Step, Called, CheckGuards, ReportsBlocking, Interrupted;
  }

  /**
   A run as shipped, entered with `initial_status_delta`, already `running`, makes an illegal transition
   exactly if its Planner is called and neither blocks the run nor writes `running` itself.
   */
  lemma LegalFromRunningIff(cfg: Settings, s: State, now: real, visits: seq<Visit>)
    requires s.status == Running && LawfulRun(cfg, Config(At(Planner), s), now, visits)
    requires ShippedRun(cfg, Config(At(Planner), s), visits)
    ensures AllLegal(cfg, Config(At(Planner), s), visits) <==>
              (PlannerRuns(cfg, s, visits) ==>
                 ReportsBlocking(visits[0].outcome) || OwnStatus(visits[0].outcome) == Some(Running))
  {
    hide Step, Called, Lawful, ReportsBlocking, Interrupted, CanTransition, Fits, Timely;
    if visits != [] {
      var v, c' := visits[0], Step(cfg, Config(At(Planner), s), visits[0]);
      PlannerVisitWhileRunning(cfg, s, now, v);
      if Called(Planner, Interrupted(s, v), cfg, v.entered) && LeavesStatusToTheGraph(v.outcome) {
        hide ShippedRun, LawfulRun;
      } else {
        PastPlanningNeverRushes(cfg, c', v.routed, visits[1..]);
        FittingRunsAreLegalIff(cfg, c', v.routed, visits[1..]);
      }
    }
  }

  /** Silent runs are a case of shipped ones, and in them nobody rushes. */
  lemma {:induction false} QuietRunsAreShipped(cfg: Settings, c: Config, visits: seq<Visit>)
    requires Quiet(visits)
    ensures ShippedRun(cfg, c, visits) && !Rushed(cfg, c, visits)
    decreases |visits|
  {
    if c.place.At? && visits != [] {
      assert visits[0] in visits;
      hide Step;
      QuietRunsAreShipped(cfg, Step(cfg, c, visits[0]), visits[1..]);
    }
  }

  /**
   What the graph is written for, nodes that write no status at all, leaves one illegal transition: from
   the queue such a run is legal exactly if it does not ship unplanned.
   */
  lemma QuietFromQueuedIff(cfg: Settings, s: State, now: real, visits: seq<Visit>)
    requires s.status == Queued && LawfulRun(cfg, Config(At(Planner), s), now, visits) && Quiet(visits)
    ensures AllLegal(cfg, Config(At(Planner), s), visits) <==> !ShipsUnplanned(cfg, s, visits)
  {
    hide AllLegal, LawfulRun, ShippedRun, Rushed, ShipsUnplanned, Called, Step, Interrupted;
    assert PlannerRuns(cfg, s, visits) ==> OwnStatus(visits[0].outcome).None? by {
      if visits != [] { assert visits[0] in visits; }
    }
    hide Quiet, PlannerRuns, OwnStatus;
    QuietRunsAreShipped(cfg, Config(At(Planner), s), visits);
    LegalFromQueuedIff(cfg, s, now, visits);
  }

  // ----------------------------------------------------------- the failing runs

  /** A visit between two instants, by a node that says this much. */
  function Answering(entered: real, landed: real, o: Outcome): Visit { Visit(false, entered, landed, landed, o) }

  function Writing(st: Status): Outcome { Returns(NO_DELTA.(status := Some(st))) }

  /** A Planner that succeeds takes the run from `queued` to `running`. */
  lemma SucceedingPlannerIsIllegal(cfg: Settings)
    requires cfg.maxSteps > 0 && cfg.tokenBudget > 0
    ensures var s, visits := NewState(1.0), [Answering(0.0, 0.0, Writing(Running))];
            && LawfulRun(cfg, Config(At(Planner), s), 0.0, visits)
            && ShippedRun(cfg, Config(At(Planner), s), visits)
            && PlannerRuns(cfg, s, visits)
            && !AllLegal(cfg, Config(At(Planner), s), visits)
  {
    var s, visits := NewState(1.0), [Answering(0.0, 0.0, Writing(Running))];
    assert visits[1..] == [];
    assert Called(Planner, s, cfg, 0.0);
    hide Step, Called;
    LegalFromQueuedIff(cfg, s, 0.0, visits);
  }

  /** A silent Planner takes a run entered as `running` back to `planning`. */
  lemma SilentPlannerIsIllegal(cfg: Settings)
    requires cfg.maxSteps > 0 && cfg.tokenBudget > 0
    ensures var s, visits := NewState(1.0).(status := Running), [Answering(0.0, 0.0, Returns(NO_DELTA))];
            && LawfulRun(cfg, Config(At(Planner), s), 0.0, visits)
            && ShippedRun(cfg, Config(At(Planner), s), visits)
            && PlannerRuns(cfg, s, visits)
            && !AllLegal(cfg, Config(At(Planner), s), visits)
  {
    var s, visits := NewState(1.0).(status := Running), [Answering(0.0, 0.0, Returns(NO_DELTA))];
    assert visits[1..] == [];
    assert Called(Planner, s, cfg, 0.0);
    hide Step, Called;
    LegalFromRunningIff(cfg, s, 0.0, visits);
  }

  lemma TwoVisits(cfg: Settings, s: State, now: real, first: Visit, second: Visit)
    requires Lawful(Planner, first.outcome) && Timely(now, first) && AsShipped(Planner, first.outcome)
    requires Step(cfg, Config(At(Planner), s), first).place == At(Reporter)
    requires Lawful(Reporter, second.outcome) && Timely(first.routed, second) && AsShipped(Reporter, second.outcome)
    ensures LawfulRun(cfg, Config(At(Planner), s), now, [first, second])
    ensures ShippedRun(cfg, Config(At(Planner), s), [first, second])
    ensures Rushes(cfg, Step(cfg, Config(At(Planner), s), first), second) ==>
              Rushed(cfg, Config(At(Planner), s), [first, second])
  {
    hide Step, Lawful, AsShipped, Rushes;
    assert [first, second][1..] == [second] && [second][1..] == [];
    assert LawfulRun(cfg, Step(cfg, Config(At(Planner), s), first), first.routed, [second]);
    assert ShippedRun(cfg, Step(cfg, Config(At(Planner), s), first), [second]);
  }

  /** A run picked up after its deadline: the Planner is skipped, and whatever the Report ships is illegal. */
  lemma LateRunShipsUnplanned(cfg: Settings, o: Outcome)
    requires cfg.maxSteps > 0 && cfg.tokenBudget > 0
    requires Lawful(Reporter, o) && AsShipped(Reporter, o) && !GivesUp(o)
    ensures var s, visits := NewState(1.0), [Answering(1.0, 1.0, TimesOut), Answering(1.0, 1.0, o)];
            && LawfulRun(cfg, Config(At(Planner), s), 0.0, visits)
            && ShippedRun(cfg, Config(At(Planner), s), visits)
            && ShipsUnplanned(cfg, s, visits)
            && !AllLegal(cfg, Config(At(Planner), s), visits)
  {
    var s, first, second := NewState(1.0), Answering(1.0, 1.0, TimesOut), Answering(1.0, 1.0, o);
    assert !Called(Planner, s, cfg, 1.0) && CheckGuards(s, cfg, 1.0).value.route == To(Reporter);
    hide Step, Called, CheckGuards, GivesUp, Lawful, AllLegal;
    PlannerVisit(cfg, s, 0.0, first);
    assert Lawful(Planner, TimesOut) by { TimingOutIsLawful(); }
    TwoVisits(cfg, s, 0.0, first, second);
    LegalFromQueuedIff(cfg, s, 0.0, [first, second]);
  }

  lemma TimingOutIsLawful()
    ensures Lawful(Planner, TimesOut)
  {
  }

  /** A Planner that times out at the deadline, and a Report that declares success all the same. */
  lemma TimedOutPlannerIsRushed(cfg: Settings, done: Status)
    requires cfg.maxSteps > 0 && cfg.tokenBudget > 0 && (done == Completed || done == CompletedWithFindings)
    ensures var s, visits := NewState(1.0), [Answering(0.0, 1.0, TimesOut), Answering(1.0, 1.0, Writing(done))];
            && LawfulRun(cfg, Config(At(Planner), s), 0.0, visits)
            && ShippedRun(cfg, Config(At(Planner), s), visits)
            && Rushed(cfg, Config(At(Planner), s), visits)
            && !AllLegal(cfg, Config(At(Planner), s), visits)
  {
    var s, first, second := NewState(1.0), Answering(0.0, 1.0, TimesOut), Answering(1.0, 1.0, Writing(done));
    assert Called(Planner, s, cfg, 0.0);
    TimedOutAtDeadline(cfg);
    hide Step, Called, CheckGuards, AllLegal;
    TwoVisits(cfg, s, 0.0, first, second);
    LegalFromQueuedIff(cfg, s, 0.0, [first, second]);
  }

  lemma TimedOutAtDeadline(cfg: Settings)
    requires cfg.maxSteps > 0 && cfg.tokenBudget > 0
    ensures var c' := Step(cfg, Config(At(Planner), NewState(1.0)), Answering(0.0, 1.0, TimesOut));
            && c'.place == At(Reporter) && c'.state.status == Planning
            && Called(Reporter, c'.state, cfg, 1.0)
  {
    var s, v := NewState(1.0), Answering(0.0, 1.0, TimesOut);
    var c' := Step(cfg, Config(At(Planner), s), v);
    hide Step, CheckGuards, Blocked, PlanExceedsBudget, NeedsFreshData;
    GuardsFireIff(s, cfg, 0.0);
    StatusAfter(cfg, Config(At(Planner), s), v);
    StepFollows(cfg, Config(At(Planner), s), v);
    StepTakesTheEdge(cfg, Config(At(Planner), s), v);
    GuardsFireIff(c'.state, cfg, 1.0);
    BlockedIff(c'.state);
  }
}
