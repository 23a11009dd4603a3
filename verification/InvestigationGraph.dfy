/**
 The node wrapper, the wiring, and whole runs over nodes that may return anything.
 */
module InvestigationGraph {
  import opened Options
  import opened InvestigationState
  import opened Router
  import StatePreview

  // ---------------------------------------------------------------- wrapper

  /** What calling a node comes to: a delta, a timeout, or an exception turned into a record. */
  datatype Outcome = Returns(delta: Delta) | TimesOut | Throws(error: AgentError)

  /** `TERMINAL_NODES`: the exit path, which a guard that ships a report does not stop. */
  predicate OnExitPath(node: Node) { node == Reporter || node == CriticFinal }

  /** `_is_exempt`. */
  predicate IsExempt(node: Node, h: Halt) { OnExitPath(node) && h.route != End }

  /** `_already_recorded`. */
  predicate AlreadyRecorded(s: State, errorType: string)
  {
    exists e :: e in s.errors && e.errorType == errorType
  }

  /** `_halt_delta`: what a skipped node returns. */
  function HaltDelta(h: Halt, s: State): Delta
  {
    NO_DELTA.(errors := if AlreadyRecorded(s, h.reason.Name()) then None else Some([HaltError(h)]),
              status := if h.status.IsTerminal() && h.route == End then Some(h.status) else None)
  }

  /** The delta of a node that was called, before the wrapper touches it. */
  function RawDelta(o: Outcome): Delta
  {
    match o
    case Returns(d) => d
    case TimesOut => NO_DELTA.(errors := Some([AgentError("timeout", true)]), stepCount := Some(1))
    case Throws(e) => NO_DELTA.(errors := Some([e]), stepCount := Some(1))
  }

  /** `delta.setdefault("step_count", 1)`. */
  function Counted(d: Delta): Delta
  {
    if d.stepCount.None? then d.(stepCount := Some(1)) else d
  }

  /** `_record_halt`. */
  function RecordHalt(h: Halt, d: Delta, s: State): Delta
  {
    if AlreadyRecorded(s, h.reason.Name()) then d
    else d.(errors := Some(Replace([], d.errors) + [HaltError(h)]))
  }

  /** `_verdict_of(critique) == "revise"`. */
  predicate WantsRevision(critique: Option<Critique>) { critique.Some? && critique.value.verdict == Revise }

  function Max(a: int, b: int): int { if a >= b then a else b }

  /** `_enforce_revision_progress`. */
  function EnforceRevisionProgress(d: Delta, s: State): Delta
  {
    var mirrored := if d.critique.Some? && d.critique.value.Some? && d.history.None?
                    then d.(history := Some([d.critique.value.value])) else d;
    if WantsRevision(s.critique)
    then mirrored.(revisionCount := Some(Max(Replace(0, mirrored.revisionCount), s.revisionCount + 1)))
    else mirrored
  }

  /** `_annotate_only`. */
  function AnnotateOnly(d: Delta): Delta { d.(revisionCount := None, report := None) }

  /** `_stamp_status`. */
  function StampStatus(node: Node, d: Delta, s: State, cfg: Settings, now: real): Delta
  {
    if d.status.Some? then d
    else
      var after := StatePreview.Merged(s, d);
      if node == CriticFinal then d.(status := Some(TerminalStatus(after, cfg, now)))
      else
        var h := CheckGuards(after, cfg, now);
        if h.Some? && h.value.route == End then d.(status := Some(h.value.status))
        else d.(status := Some(PhaseStatus(node)))
  }

  /** Whether the wrapper calls the node at all. */
  predicate Called(node: Node, s: State, cfg: Settings, now: real)
  {
    var h := CheckGuards(s, cfg, now);
    h.None? || IsExempt(node, h.value)
  }

  /** The delta of a called node, counted and checked, as it reaches the stamp. */
  function Checked(node: Node, s: State, halt: Option<Halt>, o: Outcome): Delta
  {
    var counted := Counted(RawDelta(o));
    var recorded := if halt.Some? then RecordHalt(halt.value, counted, s) else counted;
    if node == Critic then EnforceRevisionProgress(recorded, s)
    else if node == CriticFinal then AnnotateOnly(recorded)
    else recorded
  }

  /** What the wrapped node hands back; `entered` is when the guard is read, `landed` when it ends. */
  function Wrapped(node: Node, s: State, cfg: Settings, entered: real, landed: real, o: Outcome): Delta
  {
    var h := CheckGuards(s, cfg, entered);
    if !Called(node, s, cfg, entered) then HaltDelta(h.value, s)
    else StampStatus(node, Checked(node, s, h, o), s, cfg, landed)
  }

  // ------------------------------------------------------------------- runs

  /**
   One visit: whether somebody cancelled the run just before it, the instants at which the guard,
   the stamp and the edge read the clock, and what the node came to.
   */
  datatype Visit = Visit(cancelled: bool, entered: real, landed: real, routed: real, outcome: Outcome)

  /** Where a run stands. */
  datatype Place = At(node: Node) | Done

  datatype Config = Config(place: Place, state: State)

  function PlaceOf(r: Route): Place { if r.End? then Done else At(r.node) }

  /** A cancellation from outside; a terminal status is not overwritten. */
  function Interrupted(s: State, v: Visit): State
  {
    if v.cancelled && !s.status.IsTerminal() then s.(status := Cancelled) else s
  }

  /** One superstep: cancel, run the wrapped node, reduce its delta, take the edge. */
  function Step(cfg: Settings, c: Config, v: Visit): Config
    requires c.place.At?
  {
    var s := Interrupted(c.state, v);
    var s' := Apply(s, Wrapped(c.place.node, s, cfg, v.entered, v.landed, v.outcome));
    Config(PlaceOf(RouteAfter(c.place.node, s', cfg, v.routed)), s')
  }

  /** A run; visits left over after `END` are not used. */
  function Run(cfg: Settings, c: Config, visits: seq<Visit>): Config
    decreases |visits|
  {
    if c.place.Done? || visits == [] then c else Run(cfg, Step(cfg, c, visits[0]), visits[1..])
  }

  // --------------------------------------------------------------- contract

  predicate IsCritic(node: Node) { node == Critic || node == CriticFinal }

  /**
   What every node keeps to: only the Critic nodes write a critique and the history mirrors it,
   nobody but the graph writes `revision_count`, and what is counted is never negative.
   */
  predicate Lawful(node: Node, o: Outcome)
  {
    o.Returns? ==>
      var d := o.delta;
      && d.revisionCount.None?
      && (!IsCritic(node) ==> d.critique.None? && d.history.None?)
      && (d.history.Some? ==> d.critique.Some? && d.critique.value.Some? && d.history.value == [d.critique.value.value])
      && (d.stepCount.Some? ==> d.stepCount.value >= 0)
      && (d.tokens.Some? ==> d.tokens.value.input >= 0 && d.tokens.value.output >= 0)
  }

  /** The clock does not run backwards within a visit, and none starts before `now`. */
  predicate Timely(now: real, v: Visit) { now <= v.entered <= v.landed <= v.routed }

  /** Every visit of a run keeps to the contract of the node it happens to reach. */
  ghost predicate LawfulRun(cfg: Settings, c: Config, now: real, visits: seq<Visit>)
    decreases |visits|
  {
    c.place.Done? || visits == [] ||
    (Lawful(c.place.node, visits[0].outcome) && Timely(now, visits[0]) &&
     LawfulRun(cfg, Step(cfg, c, visits[0]), visits[0].routed, visits[1..]))
  }

  // -------------------------------------------- what the wrapper may change

  /** The stamp writes the status and nothing else. */
  lemma StampsOnlyStatus(node: Node, d: Delta, s: State, cfg: Settings, now: real)
    ensures var stamped := StampStatus(node, d, s, cfg, now);
            stamped.status.Some? && stamped == d.(status := stamped.status)
  {
    hide CheckGuards, TerminalStatus, StatePreview.Merged;
  }

  // --------------------------------------------------- the preview is faithful

  lemma VersionsAreNotRead(one: State, other: State, cfg: Settings, now: real, node: Node)
    requires one == other.(promptVersions := one.promptVersions)
    ensures CheckGuards(one, cfg, now) == CheckGuards(other, cfg, now)
    ensures TerminalStatus(one, cfg, now) == TerminalStatus(other, cfg, now)
    ensures RouteAfter(node, one, cfg, now) == RouteAfter(node, other, cfg, now)
  {
  }

  /**
   The preview is faithful: whatever keys the state and the delta hold, every guard, the final status
   and every edge give the same answer on the dictionary `_merged` builds as on the one the declared
   reducers build.
   */
  lemma PreviewIsFaithful(state: StatePreview.Dict, delta: StatePreview.Dict, cfg: Settings, now: real, node: Node)
    requires StatePreview.Typed(state) && StatePreview.Typed(delta)
    ensures var preview, applied := StatePreview.View(StatePreview.Previewed(state, delta)),
                                  StatePreview.View(StatePreview.Reduced(state, delta));
            && CheckGuards(preview, cfg, now) == CheckGuards(applied, cfg, now)
            && TerminalStatus(preview, cfg, now) == TerminalStatus(applied, cfg, now)
            && RouteAfter(node, preview, cfg, now) == RouteAfter(node, applied, cfg, now)
  {
    hide StatePreview.Previewed, StatePreview.Reduced, StatePreview.View, CheckGuards, TerminalStatus, RouteAfter;
    var preview, reduced := StatePreview.Previewed(state, delta), StatePreview.Reduced(state, delta);
    StatePreview.PreviewAgrees(state, delta);
    StatePreview.ViewsAgree(preview, reduced);
    VersionsAreNotRead(StatePreview.View(preview), StatePreview.View(reduced), cfg, now, node);
  }

  /** The same, for the typed state and delta of a node: what the stamp sees is what the run will be. */
  lemma StampSeesTheNextState(s: State, d: Delta, cfg: Settings, now: real, node: Node)
    ensures CheckGuards(StatePreview.Merged(s, d), cfg, now) == CheckGuards(Apply(s, d), cfg, now)
    ensures TerminalStatus(StatePreview.Merged(s, d), cfg, now) == TerminalStatus(Apply(s, d), cfg, now)
    ensures RouteAfter(node, StatePreview.Merged(s, d), cfg, now) == RouteAfter(node, Apply(s, d), cfg, now)
  {
    hide StatePreview.Merged, CheckGuards, TerminalStatus, RouteAfter;
    StatePreview.MergedIsApplied(s, d);
    VersionsAreNotRead(StatePreview.Merged(s, d), Apply(s, d), cfg, now, node);
  }
}
