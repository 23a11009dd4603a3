/**
 The shared state of an investigation, the deltas nodes return, and the declared reducers.
 */
module InvestigationState {
  import opened Options

  datatype Status =
    | Queued | Planning | Running | Reflecting
    | Completed | CompletedWithFindings | Failed | Cancelled
    | Unknown
  {
    /** `InvestigationStatus.is_terminal`. */
    predicate IsTerminal() { Completed? || CompletedWithFindings? || Failed? || Cancelled? }
  }

  /** `VALID_TRANSITIONS`. */
  function ValidTransitions(current: Status): set<Status>
  {
    match current
    case Queued => {Planning, Cancelled, Failed}
    case Planning => {Running, Cancelled, Failed}
    case Running => {Reflecting, Completed, CompletedWithFindings, Cancelled, Failed}
    case Reflecting => {Running, Completed, CompletedWithFindings, Cancelled, Failed}
    case _ => {}
  }

  /** `can_transition`. */
  predicate CanTransition(current: Status, target: Status)
  {
    current == target || target in ValidTransitions(current)
  }

  /** A failure recorded in the state; the router reads `recoverable`, the wrapper `errorType`. */
  datatype AgentError = AgentError(errorType: string, recoverable: bool)

  /** A verdict, case folded; a payload may carry none. */
  datatype Verdict = NoVerdict | Accept | Revise | OtherVerdict

  /** Where a finding says the defect comes from, case folded. */
  datatype Stage = RetrieverStage | InsightStage | StrategyStage | ReportStage | OtherStage

  datatype Finding = Finding(resolved: bool, stage: Option<Stage>)

  /** A critique payload. An empty `sha` is a missing artifact hash. */
  datatype Critique = Critique(verdict: Verdict, stage: Option<Stage>, findings: seq<Finding>, sha: string)

  datatype PlanStep = PlanStep(needsSync: bool)

  datatype Report = Report(body: string)

  datatype Ledger = Ledger(input: int, output: int, cached: int, calls: int, cost: real) {
    function Total(): int { input + output }

    /** `plus`, which is also the reducer `merge_ledgers`. */
    function Plus(other: Ledger): Ledger
    {
      Ledger(input + other.input, output + other.output, cached + other.cached, calls + other.calls, cost + other.cost)
    }
  }

  const NO_TOKENS := Ledger(0, 0, 0, 0, 0.0)

  /** Ledgers add up field by field: in any order, and nothing adds nothing. */
  lemma LedgersAddUp(a: Ledger, b: Ledger, c: Ledger)
    ensures a.Plus(b) == b.Plus(a) && a.Plus(b).Plus(c) == a.Plus(b.Plus(c))
    ensures a.Plus(NO_TOKENS) == a && a.Plus(b).Total() == a.Total() + b.Total()
  {
  }

  /**
   The keys the router and the wrapper read, and one representative of every other kind of key:
   `evidence` for the append-reduced lists, `promptVersions` for the merged dict, `confidence` for
   the single-writer scalars.
   */
  datatype State = State(
    deadline: Option<real>,
    plan: seq<PlanStep>,
    status: Status,
    evidence: seq<string>,
    history: seq<Critique>,
    errors: seq<AgentError>,
    critique: Option<Critique>,
    revisionCount: int,
    report: Option<Report>,
    confidence: real,
    stepCount: int,
    tokens: Ledger,
    promptVersions: map<string, string>)

  /** A partial state; `None` is an absent key. */
  datatype Delta = Delta(
    plan: Option<seq<PlanStep>>,
    status: Option<Status>,
    evidence: Option<seq<string>>,
    history: Option<seq<Critique>>,
    errors: Option<seq<AgentError>>,
    critique: Option<Option<Critique>>,
    revisionCount: Option<int>,
    report: Option<Option<Report>>,
    confidence: Option<real>,
    stepCount: Option<int>,
    tokens: Option<Ledger>,
    promptVersions: Option<map<string, string>>)

  const NO_DELTA := Delta(None, None, None, None, None, None, None, None, None, None, None, None)

  /** `new_state`. */
  function NewState(deadline: real): State
  {
    State(Some(deadline), [], Queued, [], [], [], None, 0, None, 0.0, 0, NO_TOKENS, map[])
  }

  function Replace<T>(current: T, update: Option<T>): T
  {
    if update.Some? then update.value else current
  }

  function Append<T>(current: seq<T>, update: Option<seq<T>>): seq<T>
  {
    if update.Some? then current + update.value else current
  }

  /** What the graph runtime does with a delta: the reducers declared in `agents/state.py`. */
  function Apply(s: State, d: Delta): State
  {
    State(s.deadline,
          Replace(s.plan, d.plan),
          Replace(s.status, d.status),
          Append(s.evidence, d.evidence),
          Append(s.history, d.history),
          Append(s.errors, d.errors),
          Replace(s.critique, d.critique),
          Replace(s.revisionCount, d.revisionCount),
          Replace(s.report, d.report),
          Replace(s.confidence, d.confidence),
          if d.stepCount.Some? then s.stepCount + d.stepCount.value else s.stepCount,
          if d.tokens.Some? then s.tokens.Plus(d.tokens.value) else s.tokens,
          if d.promptVersions.Some? then s.promptVersions + d.promptVersions.value else s.promptVersions)
  }
}
