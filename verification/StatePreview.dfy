/**
 `_merged` and the reducers it stands in for, both over the dictionaries the source works on: one a
 loop over the delta's keys in whatever order they come, the other the annotations of the state.
 */
module StatePreview {
  import opened Options
  import opened InvestigationState

  // ------------------------------------------------------------ dictionaries

  /** The keys of the state that are modelled. */
  datatype Key =
    | DeadlineAt | Plan | StatusKey | EvidenceKey | CritiqueHistory | Errors | CritiqueKey
    | RevisionCount | ReportKey | Confidence | StepCount | TokensSpent | PromptVersions

  datatype Value =
    | Moment(at: real) | Steps(plan: seq<PlanStep>) | Phase(status: Status)
    | Strings(strings: seq<string>) | Critiques(critiques: seq<Critique>) | Failures(failures: seq<AgentError>)
    | Verdicts(critique: Option<Critique>) | Count(count: int) | Reports(report: Option<Report>)
    | Score(score: real) | Spent(ledger: Ledger) | Versions(versions: map<string, string>)

  type Dict = map<Key, Value>

  predicate Fits(k: Key, v: Value)
  {
    match k
    case DeadlineAt => v.Moment?
    case Plan => v.Steps?
    case StatusKey => v.Phase?
    case EvidenceKey => v.Strings?
    case CritiqueHistory => v.Critiques?
    case Errors => v.Failures?
    case CritiqueKey => v.Verdicts?
    case RevisionCount => v.Count?
    case ReportKey => v.Reports?
    case Confidence => v.Score?
    case StepCount => v.Count?
    case TokensSpent => v.Spent?
    case PromptVersions => v.Versions?
  }

  /** Every value has the type its key is declared with. Any key may be absent. */
  predicate Typed(d: Dict)
  {
    forall k :: k in d ==> Fits(k, d[k])
  }

  // ------------------------------------------------------------ the declaration

  datatype Reducer = OperatorAdd | MergeLedgers | MergeVersions

  /** What `InvestigationState` says of a key: whether it is a list, and the reducer it is annotated with. */
  datatype Annotation = Annotation(isList: bool, reducer: Option<Reducer>)

  function Declared(k: Key): Annotation
  {
    match k
    case Plan => Annotation(true, None)
    case EvidenceKey => Annotation(true, Some(OperatorAdd))
    case CritiqueHistory => Annotation(true, Some(OperatorAdd))
    case Errors => Annotation(true, Some(OperatorAdd))
    case StepCount => Annotation(false, Some(OperatorAdd))
    case TokensSpent => Annotation(false, Some(MergeLedgers))
    case PromptVersions => Annotation(false, Some(MergeVersions))
    case _ => Annotation(false, None)
  }

  /** `_append_reduced_keys`, read off the declaration. */
  function AppendReducedKeys(): set<Key>
  {
    set k: Key | Declared(k).isList && Declared(k).reducer == Some(OperatorAdd)
  }

  /** `[*xs, *ys]`, for two lists of one type. */
  function Concat(xs: Value, ys: Value): Value
  {
    match (xs, ys)
    case (Strings(a), Strings(b)) => Strings(a + b)
    case (Critiques(a), Critiques(b)) => Critiques(a + b)
    case (Failures(a), Failures(b)) => Failures(a + b)
    case _ => ys
  }

  // ------------------------------------------------------------ the reducers

  /** A declared reducer, applied to two values of its type. */
  function Combine(r: Reducer, left: Value, right: Value): Value
  {
    match (r, left, right)
    case (OperatorAdd, Count(a), Count(b)) => Count(a + b)
    case (OperatorAdd, _, _) => Concat(left, right)
    case (MergeLedgers, Spent(a), Spent(b)) => Spent(a.Plus(b))
    case (MergeVersions, Versions(a), Versions(b)) => Versions(a + b)
    case _ => right
  }

  /** What the graph runtime makes of a delta: a reducer joins what exists, anything else replaces. */
  function Reduced(state: Dict, delta: Dict): Dict
  {
    map k | k in state.Keys + delta.Keys ::
      if k !in delta then state[k]
      else if k in state && Declared(k).reducer.Some? then Combine(Declared(k).reducer.value, state[k], delta[k])
      else delta[k]
  }

  // ------------------------------------------------------------ the preview

  /** One turn of the loop in `_merged`. */
  function Turn(merged: Dict, key: Key, value: Value): Dict
  {
    if key in AppendReducedKeys() then merged[key := if key in merged then Concat(merged[key], value) else value]
    else if key == StepCount then
      var existing := if key in merged && merged[key].Count? then merged[key].count else 0;
      merged[key := if value.Count? then Count(existing + value.count) else value]
    else if key == TokensSpent then
      var ledger := if key in merged && merged[key].Spent? then merged[key].ledger else NO_TOKENS;
      merged[key := if value.Spent? then Spent(ledger.Plus(value.ledger)) else value]
    else merged[key := value]
  }

  /** The preview, key by key. */
  function Previewed(state: Dict, delta: Dict): Dict
  {
    map k | k in state.Keys + delta.Keys :: if k in delta then Turn(state, k, delta[k])[k] else state[k]
  }

  /** A turn touches its own key, and reads nothing but that key and the value. */
  lemma TurnIsLocal(one: Dict, other: Dict, key: Key, value: Value)
    ensures Turn(one, key, value).Keys == one.Keys + {key}
    ensures forall k :: k in one && k != key ==> Turn(one, key, value)[k] == one[k]
    ensures (key in one <==> key in other) && (key in one ==> one[key] == other[key]) ==>
              Turn(one, key, value)[key] == Turn(other, key, value)[key]
  {
    hide AppendReducedKeys, Concat;
  }

  /** Part of the way through the loop: the keys in `done` have had their turn. */
  ghost predicate Merging(state: Dict, delta: Dict, merged: Dict, done: set<Key>)
  {
    && done <= delta.Keys
    && merged.Keys == state.Keys + done
    && (forall k :: k in done ==> merged[k] == Turn(state, k, delta[k])[k])
    && (forall k :: k in state && k !in done ==> merged[k] == state[k])
  }

  lemma NextTurn(state: Dict, delta: Dict, merged: Dict, done: set<Key>, key: Key)
    requires Merging(state, delta, merged, done) && key in delta && key !in done
    ensures Merging(state, delta, Turn(merged, key, delta[key]), done + {key})
  {
    TurnIsLocal(merged, state, key, delta[key]);
    hide Turn;
  }

  lemma NoTurnTaken(state: Dict, delta: Dict)
    ensures Merging(state, delta, state, {})
  {
  }

  lemma AllTurnsTaken(state: Dict, delta: Dict, merged: Dict)
    requires Merging(state, delta, merged, delta.Keys)
    ensures merged == Previewed(state, delta)
  {
    hide Turn;
  }

  /** `_merged`: the loop over the delta, in any order in which every key comes once. */
  method Merge(state: Dict, delta: Dict, order: seq<Key>) returns (merged: Dict)
    requires forall k :: k in order <==> k in delta
    requires forall i, j :: 0 <= i < j < |order| ==> order[i] != order[j]
    ensures merged == Previewed(state, delta)
  {
    merged := state;
    ghost var done: set<Key> := {};
    NoTurnTaken(state, delta);
    hide Merging, Previewed, AppendReducedKeys, Concat;
    for i := 0 to |order|
      invariant Merging(state, delta, merged, done)
      invariant forall k :: k in done <==> k in order[..i]
    {
      var key, value := order[i], delta[order[i]];
      assert order[..i + 1] == order[..i] + [key];
      assert key !in done;
      NextTurn(state, delta, merged, done, key);
      if key in AppendReducedKeys() {
        merged := merged[key := if key in merged then Concat(merged[key], value) else value];
      } else if key == StepCount {
        var existing := if key in merged && merged[key].Count? then merged[key].count else 0;
        merged := merged[key := if value.Count? then Count(existing + value.count) else value];
      } else if key == TokensSpent {
        var ledger := if key in merged && merged[key].Spent? then merged[key].ledger else NO_TOKENS;
        merged := merged[key := if value.Spent? then Spent(ledger.Plus(value.ledger)) else value];
      } else {
        merged := merged[key := value];
      }
      done := done + {key};
    }
    assert order[..|order|] == order;
    assert done == delta.Keys;
    AllTurnsTaken(state, delta, merged);
  }

  // ------------------------------------------------------------ their agreement

  /** The list keys that append are exactly the three the fan-out writes. */
  lemma AppendedKeys()
    ensures AppendReducedKeys() == {EvidenceKey, CritiqueHistory, Errors}
  {
  }

  /**
   The loop and the reducers agree on every key but `prompt_versions`, absent keys included, although
   the loop was written against the one and is fed by the other.
   */
  lemma PreviewAgrees(state: Dict, delta: Dict)
    requires Typed(state) && Typed(delta)
    ensures Previewed(state, delta).Keys == Reduced(state, delta).Keys
    ensures forall k :: k in Previewed(state, delta) && k != PromptVersions ==>
              Previewed(state, delta)[k] == Reduced(state, delta)[k]
  {
    forall k | k in state.Keys + delta.Keys && k != PromptVersions
      ensures Previewed(state, delta)[k] == Reduced(state, delta)[k]
    {
      if k in delta {
        assert Fits(k, delta[k]) && (k in state ==> Fits(k, state[k]));
        AppendedKeys();
      }
    }
  }

  /** On `prompt_versions` the loop replaces where the reducer joins. */
  lemma VersionsAreReplaced(state: Dict, delta: Dict)
    requires Typed(state) && Typed(delta) && PromptVersions in state && PromptVersions in delta
    ensures Previewed(state, delta)[PromptVersions] == delta[PromptVersions]
    ensures Reduced(state, delta)[PromptVersions] ==
            Versions(state[PromptVersions].versions + delta[PromptVersions].versions)
  {
    AppendedKeys();
    assert Fits(PromptVersions, state[PromptVersions]) && Fits(PromptVersions, delta[PromptVersions]);
  }

  lemma ReplacingLosesNothingIff(p: map<string, string>, q: map<string, string>)
    ensures p + q == q <==> p.Keys <= q.Keys
  {
    if !(p.Keys <= q.Keys) {
      var k :| k in p.Keys && k !in q.Keys;
      assert k in (p + q).Keys;
    }
  }

  /** They agree outright exactly when replacing `prompt_versions` drops no agent's prompt. */
  lemma PreviewAgreesOnVersionsIff(state: Dict, delta: Dict)
    requires Typed(state) && Typed(delta)
    ensures Previewed(state, delta) == Reduced(state, delta) <==>
              (PromptVersions in state && PromptVersions in delta ==>
                 state[PromptVersions].versions.Keys <= delta[PromptVersions].versions.Keys)
  {
    PreviewAgrees(state, delta);
    assert Typed(state) && Typed(delta);
    if PromptVersions in state && PromptVersions in delta {
      assert Fits(PromptVersions, delta[PromptVersions]);
      VersionsAreReplaced(state, delta);
      ReplacingLosesNothingIff(state[PromptVersions].versions, delta[PromptVersions].versions);
    } else if PromptVersions in state || PromptVersions in delta {
      OneSidedVersions(state, delta);
    }
    hide Previewed, Reduced, Typed, Fits;
    assert (forall k :: k in Previewed(state, delta) ==> Previewed(state, delta)[k] == Reduced(state, delta)[k]) <==>
             Previewed(state, delta) == Reduced(state, delta);
  }

  lemma OneSidedVersions(state: Dict, delta: Dict)
    requires PromptVersions in state.Keys + delta.Keys && !(PromptVersions in state && PromptVersions in delta)
    ensures Previewed(state, delta)[PromptVersions] == Reduced(state, delta)[PromptVersions]
  {
    AppendedKeys();
  }

  // ------------------------------------------------------------ the typed view

  /** What a state holds under a key; only the deadline can be absent. */
  function StateField(s: State, k: Key): Option<Value>
  {
    match k
    case DeadlineAt => if s.deadline.Some? then Some(Moment(s.deadline.value)) else None
    case Plan => Some(Steps(s.plan))
    case StatusKey => Some(Phase(s.status))
    case EvidenceKey => Some(Strings(s.evidence))
    case CritiqueHistory => Some(Critiques(s.history))
    case Errors => Some(Failures(s.errors))
    case CritiqueKey => Some(Verdicts(s.critique))
    case RevisionCount => Some(Count(s.revisionCount))
    case ReportKey => Some(Reports(s.report))
    case Confidence => Some(Score(s.confidence))
    case StepCount => Some(Count(s.stepCount))
    case TokensSpent => Some(Spent(s.tokens))
    case PromptVersions => Some(Versions(s.promptVersions))
  }

  function DeltaField(d: Delta, k: Key): Option<Value>
  {
    match k
    case DeadlineAt => None
    case Plan => if d.plan.Some? then Some(Steps(d.plan.value)) else None
    case StatusKey => if d.status.Some? then Some(Phase(d.status.value)) else None
    case EvidenceKey => if d.evidence.Some? then Some(Strings(d.evidence.value)) else None
    case CritiqueHistory => if d.history.Some? then Some(Critiques(d.history.value)) else None
    case Errors => if d.errors.Some? then Some(Failures(d.errors.value)) else None
    case CritiqueKey => if d.critique.Some? then Some(Verdicts(d.critique.value)) else None
    case RevisionCount => if d.revisionCount.Some? then Some(Count(d.revisionCount.value)) else None
    case ReportKey => if d.report.Some? then Some(Reports(d.report.value)) else None
    case Confidence => if d.confidence.Some? then Some(Score(d.confidence.value)) else None
    case StepCount => if d.stepCount.Some? then Some(Count(d.stepCount.value)) else None
    case TokensSpent => if d.tokens.Some? then Some(Spent(d.tokens.value)) else None
    case PromptVersions => if d.promptVersions.Some? then Some(Versions(d.promptVersions.value)) else None
  }

  function StateDict(s: State): Dict { map k: Key | StateField(s, k).Some? :: StateField(s, k).value }

  function DeltaDict(d: Delta): Dict { map k: Key | DeltaField(d, k).Some? :: DeltaField(d, k).value }

  /** `state.get(key)`. */
  function Look(d: Dict, k: Key): Option<Value> { if k in d then Some(d[k]) else None }

  // What a value reads as, and the default of an absent key.

  function Deadline(v: Option<Value>): Option<real> { if v.Some? && v.value.Moment? then Some(v.value.at) else None }

  function PlanOf(v: Option<Value>): seq<PlanStep> { if v.Some? && v.value.Steps? then v.value.plan else [] }

  function StatusOf(v: Option<Value>): Status { if v.Some? && v.value.Phase? then v.value.status else Queued }

  function StringsOf(v: Option<Value>): seq<string> { if v.Some? && v.value.Strings? then v.value.strings else [] }

  function CritiquesOf(v: Option<Value>): seq<Critique>
  {
    if v.Some? && v.value.Critiques? then v.value.critiques else []
  }

  function FailuresOf(v: Option<Value>): seq<AgentError>
  {
    if v.Some? && v.value.Failures? then v.value.failures else []
  }

  function CritiqueOf(v: Option<Value>): Option<Critique>
  {
    if v.Some? && v.value.Verdicts? then v.value.critique else None
  }

  function CountOf(v: Option<Value>): int { if v.Some? && v.value.Count? then v.value.count else 0 }

  function ReportOf(v: Option<Value>): Option<Report> { if v.Some? && v.value.Reports? then v.value.report else None }

  function ScoreOf(v: Option<Value>): real { if v.Some? && v.value.Score? then v.value.score else 0.0 }

  function LedgerOf(v: Option<Value>): Ledger { if v.Some? && v.value.Spent? then v.value.ledger else NO_TOKENS }

  function VersionsOf(v: Option<Value>): map<string, string>
  {
    if v.Some? && v.value.Versions? then v.value.versions else map[]
  }

  /** What the guards and edges see of a state: an absent key reads as its default. */
  function View(d: Dict): State
  {
    State(Deadline(Look(d, DeadlineAt)), PlanOf(Look(d, Plan)), StatusOf(Look(d, StatusKey)),
          StringsOf(Look(d, EvidenceKey)), CritiquesOf(Look(d, CritiqueHistory)), FailuresOf(Look(d, Errors)),
          CritiqueOf(Look(d, CritiqueKey)), CountOf(Look(d, RevisionCount)), ReportOf(Look(d, ReportKey)),
          ScoreOf(Look(d, Confidence)), CountOf(Look(d, StepCount)), LedgerOf(Look(d, TokensSpent)),
          VersionsOf(Look(d, PromptVersions)))
  }

  lemma LookAtState(s: State, k: Key)
    ensures Look(StateDict(s), k) == StateField(s, k)
  {
  }

  lemma StateIsTyped(s: State)
    ensures Typed(StateDict(s))
  {
  }

  lemma ViewOfState(s: State)
    ensures Typed(StateDict(s)) && View(StateDict(s)) == s
  {
    StateIsTyped(s);
    hide StateDict, Typed, Look;
    forall k ensures Look(StateDict(s), k) == StateField(s, k) { LookAtState(s, k); }
  }

  lemma DeltaIsTyped(d: Delta)
    ensures Typed(DeltaDict(d))
  {
  }

  /** One key under its declared reducer. */
  function ReducedField(k: Key, state: Option<Value>, delta: Option<Value>): Option<Value>
  {
    if delta.None? then state
    else if state.Some? && Declared(k).reducer.Some?
    then Some(Combine(Declared(k).reducer.value, state.value, delta.value))
    else delta
  }

  lemma ApplyReducesField(s: State, d: Delta, k: Key)
    ensures ReducedField(k, StateField(s, k), DeltaField(d, k)) == StateField(Apply(s, d), k)
  {
  }

  /** The typed reducers are the declared ones. */
  lemma ApplyIsReduced(s: State, d: Delta)
    ensures Reduced(StateDict(s), DeltaDict(d)) == StateDict(Apply(s, d))
  {
    hide StateField, DeltaField, Apply, Combine, Declared;
    var reduced, applied := Reduced(StateDict(s), DeltaDict(d)), StateDict(Apply(s, d));
    forall k: Key
      ensures k in reduced <==> k in applied
      ensures k in reduced ==> reduced[k] == applied[k]
    {
      ApplyReducesField(s, d, k);
    }
  }

  /** The preview of a state and a delta, as `_stamp_status` uses it. */
  function Merged(s: State, d: Delta): State
  {
    View(Previewed(StateDict(s), DeltaDict(d)))
  }

  /** Two dictionaries that agree off `prompt_versions` look the same but for that key. */
  lemma ViewsAgree(one: Dict, other: Dict)
    requires one.Keys == other.Keys
    requires forall k :: k in one && k != PromptVersions ==> one[k] == other[k]
    ensures View(one) == View(other).(promptVersions := View(one).promptVersions)
  {
    LooksAgree(one, other);
    hide Look, Deadline, PlanOf, StatusOf, StringsOf, CritiquesOf, FailuresOf, CritiqueOf, CountOf, ReportOf;
    hide ScoreOf, LedgerOf, VersionsOf;
  }

  lemma LooksAgree(one: Dict, other: Dict)
    requires one.Keys == other.Keys
    requires forall k :: k in one && k != PromptVersions ==> one[k] == other[k]
    ensures forall k :: k != PromptVersions ==> Look(one, k) == Look(other, k)
  {
  }

  /** The preview is the reduced state, `prompt_versions` apart, which it replaces. */
  lemma MergedIsApplied(s: State, d: Delta)
    ensures Merged(s, d) == Apply(s, d).(promptVersions := Replace(s.promptVersions, d.promptVersions))
  {
    var state, delta := StateDict(s), DeltaDict(d);
    ViewOfState(s);
    DeltaIsTyped(d);
    PreviewAgrees(state, delta);
    ApplyIsReduced(s, d);
    ViewOfState(Apply(s, d));
    ViewsAgree(Previewed(state, delta), Reduced(state, delta));
    PreviewedVersions(s, d);
    hide Previewed, Reduced, StateDict, DeltaDict, View, Typed, Apply;
  }

  lemma PreviewedVersions(s: State, d: Delta)
    ensures Merged(s, d).promptVersions == Replace(s.promptVersions, d.promptVersions)
  {
    var state, delta := StateDict(s), DeltaDict(d);
    AppendedKeys();
    assert PromptVersions in state && state[PromptVersions] == Versions(s.promptVersions);
    assert PromptVersions in delta <==> d.promptVersions.Some?;
    assert Previewed(state, delta)[PromptVersions] == Versions(Replace(s.promptVersions, d.promptVersions)) by {
      hide AppendReducedKeys, StateField, DeltaField;
    }
  }
}
