/**
 The stages of one running project: entered, evaluated, submitted, approved, and reopened again.
 Approval is not final, because a re-evaluation overwrites the status of an approved stage too.
 */
module Approvals {
  import opened Options
  import opened StageGraph

  datatype Status =
    | Pending | Waiting | Blocked | InProgress | OnHold | Validation | PendingApproval | Approved | Rejected

  /** The stages entered so far, by position. */
  type State = map<nat, Status>

  const NO_EVIDENCE := Evidence({}, map[])

  ghost function ApprovedOf(m: Machine, st: State): set<int> {
    set i | i in st && i < |m.stages| && st[i] == Approved :: m.stages[i].order
  }

  // ---- the decision engine ----------------------------------------------------------------------------------

  ghost predicate Severe(m: Machine, ev: Evidence, stage: Stage) {
    exists key :: key in stage.qualityGates && GateFails(m, ev, key) && key in ev.results && ev.results[key].severe
  }

  /** Where an evaluation puts a stage; a hold stays until it is resolved. */
  ghost function NextStatus(m: Machine, approved: set<int>, ev: Evidence, stage: Stage, current: Status): Status {
    if current.OnHold? || Severe(m, ev, stage) then OnHold
    else if exists g :: g in stage.entryGates && GateBlocks(m, approved, g) then Blocked
    else if exists g :: g in stage.entryGates && GateWaits(m, ev, g) then Waiting
    else InProgress
  }

  /** A blocking gate has a failed and severe result. */
  ghost predicate SevereResult(m: Machine, ev: Evidence, stage: Stage) {
    exists key ::
      && key in stage.qualityGates && key in m.blockingRules && m.blockingRules[key]
      && key in ev.results && !ev.results[key].passed && ev.results[key].severe
  }

  ghost predicate DependencyOpen(m: Machine, approved: set<int>, stage: Stage) {
    exists g, i :: g in stage.entryGates && g.blocking && g.kind == DependencyGate
      && FirstOf(m, g.dependsOn, i) && m.stages[i].order !in approved
  }

  ghost predicate PaperMissing(m: Machine, ev: Evidence, stage: Stage) {
    exists g :: g in stage.entryGates && g.blocking && g.key !in ev.supplied
      && (g.kind == DocumentGate
          || (g.kind == DependencyGate && forall i :: 0 <= i < |m.stages| ==> m.stages[i].key != g.dependsOn))
  }

  /** Severity first, then dependencies, then papers; a hold stays, and nothing else about the status counts. */
  lemma NextStatusIs(m: Machine, approved: set<int>, ev: Evidence, stage: Stage, current: Status)
    ensures var status := NextStatus(m, approved, ev, stage, current);
            && (status == OnHold <==> current == OnHold || SevereResult(m, ev, stage))
            && (status == Blocked <==> !(current == OnHold || SevereResult(m, ev, stage))
                                       && DependencyOpen(m, approved, stage))
            && (status == Waiting <==> !(current == OnHold || SevereResult(m, ev, stage))
                                       && !DependencyOpen(m, approved, stage) && PaperMissing(m, ev, stage))
            && (status == InProgress <==> !(current == OnHold || SevereResult(m, ev, stage))
                                          && !DependencyOpen(m, approved, stage) && !PaperMissing(m, ev, stage))
  {
    forall g | g in stage.entryGates
      ensures GateWaits(m, ev, g) <==>
        && g.blocking && g.key !in ev.supplied
        && (g.kind == DocumentGate
            || (g.kind == DependencyGate && forall i :: 0 <= i < |m.stages| ==> m.stages[i].key != g.dependsOn))
      ensures GateBlocks(m, approved, g) <==>
        && g.blocking && g.kind == DependencyGate
        && exists i :: FirstOf(m, g.dependsOn, i) && m.stages[i].order !in approved
    {
      GateIs(m, approved, ev, g);
    }
  }

  method DecideStatus(m: Machine, approved: set<int>, ev: Evidence, stage: Stage, current: Status)
    returns (status: Status)
    ensures status == NextStatus(m, approved, ev, stage, current)
    ensures status != Approved
  {
    var e := EvaluateStage(m, approved, ev, stage);
    if current.OnHold? || e.severe {
      status := OnHold;
    } else if e.blockedBy != [] {
      status := Blocked;
    } else if e.waitingOn != [] {
      status := Waiting;
    } else {
      status := InProgress;
    }
  }

  // ---- events -----------------------------------------------------------------------------------------------

  datatype Event =
    | Submit(a: Attempt, auto: bool)                    // auto: the stage has no approver
    | Approve(a: Attempt)
    | Reject(i: nat, hold: bool, ev: Evidence)
    | Reevaluate(i: nat, ev: Evidence)                  // a task, a document, a gate result or a waiver
    | RollBack(i: nat, target: nat, ev: Evidence)
    | Resume(i: nat)                                    // a hold is lifted

  ghost function Decided(m: Machine, st: State, i: nat, ev: Evidence): State
    requires i in st && i < |m.stages|
  {
    st[i := NextStatus(m, ApprovedOf(m, st), ev, m.stages[i], st[i])]
  }

  /** Every stage it depends on is approved. */
  ghost predicate Unlocked(m: Machine, approved: set<int>, i: nat)
    requires i < |m.stages|
  {
    forall g :: g in m.stages[i].entryGates && g.kind.DependencyGate? ==>
      exists j :: 0 <= j < |m.stages| && m.stages[j].key == g.dependsOn && m.stages[j].order in approved
  }

  /** Enter whatever the approvals unlock. */
  ghost function Entered(m: Machine, st: State): State {
    map i | 0 <= i < |m.stages| && (i in st || Unlocked(m, ApprovedOf(m, st), i)) ::
      if i in st then st[i] else NextStatus(m, ApprovedOf(m, st), NO_EVIDENCE, m.stages[i], Pending)
  }

  /** Finishing the last stage completes the project; any other approval opens what it unlocks. */
  ghost function Granted(m: Machine, st: State, i: nat): State {
    if i + 1 == |m.stages| then st[i := Approved] else Entered(m, st[i := Approved])
  }

  ghost function Start(m: Machine): State
    requires m.stages != []
  {
    map[0 := NextStatus(m, {}, NO_EVIDENCE, m.stages[0], Pending)]
  }

  ghost function Submitted(m: Machine, st: State, a: Attempt, auto: bool): State
    requires a.stage in st && a.stage < |m.stages|
  {
    if st[a.stage].Approved? || st[a.stage].OnHold? then st
    else if !Admitted(m, ApprovedOf(m, st), a) then Decided(m, st[a.stage := Validation], a.stage, a.evidence)
    else if auto then Granted(m, st, a.stage)
    else st[a.stage := PendingApproval]
  }

  /** The stage is abandoned and an earlier one reopened, whatever state either was in. */
  ghost function RolledBack(m: Machine, st: State, i: nat, target: nat, ev: Evidence): State
    requires i in st && i < |m.stages|
  {
    var dropped := st[i := Rejected];
    if target in dropped && target < |m.stages| then Decided(m, dropped[target := InProgress], target, ev) else dropped
  }

  function StageOf(e: Event): nat {
    match e
    case Submit(a, _) => a.stage
    case Approve(a) => a.stage
    case Reject(i, _, _) => i
    case Reevaluate(i, _) => i
    case RollBack(i, _, _) => i
    case Resume(i) => i
  }

  ghost function Step(m: Machine, st: State, e: Event): State {
    var i := StageOf(e);
    if i !in st || i >= |m.stages| then st else
    match e
    case Submit(a, auto) => Submitted(m, st, a, auto)
    case Approve(a) => if st[i].PendingApproval? && Admitted(m, ApprovedOf(m, st), a) then Granted(m, st, i) else st
    case Reject(_, hold, ev) =>
      if !st[i].PendingApproval? && !st[i].Validation? then st
      else if hold then st[i := OnHold]
      else Decided(m, st[i := InProgress], i, ev)
    case Reevaluate(_, ev) => Decided(m, st, i, ev)
    case RollBack(_, target, ev) => RolledBack(m, st, i, target, ev)
    case Resume(_) => if st[i].OnHold? then st[i := InProgress] else st
  }

  ghost function Run(m: Machine, events: seq<Event>): State
    requires m.stages != []
  {
    if events == [] then Start(m) else Step(m, Run(m, events[..|events| - 1]), events[|events| - 1])
  }

  // ---- what steps do to the approvals ---------------------------------------------------------------------------

  ghost predicate IsApproved(st: State, i: nat) { i in st && st[i] == Approved }

  lemma ApprovedAt(m: Machine, st: State, i: nat)
    requires StrictlyOrdered(m.stages) && i < |m.stages|
    ensures m.stages[i].order in ApprovedOf(m, st) <==> IsApproved(st, i)
  {
    if m.stages[i].order in ApprovedOf(m, st) {
      var j :| j in st && j < |m.stages| && st[j] == Approved && m.stages[j].order == m.stages[i].order;
      assert j == i;
    }
  }

  /** No stage is approved that was not, but for the one admitted, if the step grants it. */
  lemma OnlyAdmittedIsGranted(m: Machine, st: State, e: Event, i: nat)
    requires i < |m.stages| && IsApproved(Step(m, st, e), i) && !IsApproved(st, i)
    ensures (e.Submit? || e.Approve?) && e.a.stage == i && Admitted(m, ApprovedOf(m, st), e.a)
  {
  }

  /**
   A stage becomes approved only with every blocking document supplied, every stage it depends on approved
   and a passing result for every blocking quality gate, in the evidence it is submitted or approved with.
   */
  lemma GrantedOnEvidence(m: Machine, st: State, e: Event, i: nat)
    requires i < |m.stages| && IsApproved(Step(m, st, e), i) && !IsApproved(st, i)
    ensures e.Submit? || e.Approve?
    ensures forall key :: key in m.stages[i].qualityGates && key in m.blockingRules && m.blockingRules[key] ==>
      key in e.a.evidence.results && e.a.evidence.results[key].passed
    ensures forall g :: g in m.stages[i].entryGates && g.blocking && g.kind == DocumentGate ==>
      g.key in e.a.evidence.supplied
    ensures forall g, j ::
      (g in m.stages[i].entryGates && g.blocking && g.kind == DependencyGate && FirstOf(m, g.dependsOn, j)) ==>
        m.stages[j].order in ApprovedOf(m, st)
    ensures e.a.otherChecksPass
  {
    OnlyAdmittedIsGranted(m, st, e, i);
    ReadyIff(m, ApprovedOf(m, st), e.a.evidence, m.stages[i]);
  }

  /** A stage becomes approved when it is admitted on submission and has no approver, or on its approver's word. */
  lemma BecomesApprovedIff(m: Machine, st: State, e: Event, j: nat)
    requires j in st && j < |m.stages| && st[j] != Approved
    ensures j in Step(m, st, e)
    ensures Step(m, st, e)[j] == Approved <==>
      (e.Submit? || e.Approve?) && e.a.stage == j && Admitted(m, ApprovedOf(m, st), e.a)
      && (if e.Submit? then e.auto && st[j] != OnHold else st[j] == PendingApproval)
  {
    assert NextStatus(m, ApprovedOf(m, st), NO_EVIDENCE, m.stages[j], Pending) != Approved;
  }

  /** A stage comes to await its approver only by an admitted submission. */
  lemma AwaitsApprovalIff(m: Machine, st: State, e: Event, j: nat)
    requires j in st && j < |m.stages| && st[j] != PendingApproval
    ensures j in Step(m, st, e)
    ensures Step(m, st, e)[j] == PendingApproval <==>
      && e.Submit? && !e.auto && e.a.stage == j && st[j] != Approved && st[j] != OnHold
      && Admitted(m, ApprovedOf(m, st), e.a)
  {
  }

  /** A stage is marked rejected exactly when it is rolled back to another. */
  lemma MarkedRejectedIff(m: Machine, st: State, e: Event, j: nat)
    requires j in st && j < |m.stages| && st[j] != Rejected
    ensures j in Step(m, st, e)
    ensures Step(m, st, e)[j] == Rejected <==> e.RollBack? && e.i == j && e.target != j
  {
  }

  /** A stage goes on hold by a rejection that asks for it, or when it is evaluated with a severe result. */
  lemma GoesOnHoldIff(m: Machine, st: State, e: Event, j: nat)
    requires j in st && j < |m.stages| && st[j] != OnHold
    ensures j in Step(m, st, e)
    ensures Step(m, st, e)[j] == OnHold <==>
      || (e.Reject? && e.i == j && (st[j] == PendingApproval || st[j] == Validation)
          && (e.hold || SevereResult(m, e.ev, m.stages[j])))
      || (e.Reevaluate? && e.i == j && SevereResult(m, e.ev, m.stages[j]))
      || (e.RollBack? && e.target == j && e.i in st && e.i < |m.stages| && SevereResult(m, e.ev, m.stages[j]))
      || (e.Submit? && e.a.stage == j && st[j] != Approved && !Admitted(m, ApprovedOf(m, st), e.a)
          && SevereResult(m, e.a.evidence, m.stages[j]))
  {
    SevereIs(m, if e.Submit? then e.a.evidence else if e.Reject? || e.Reevaluate? || e.RollBack? then e.ev else NO_EVIDENCE,
      m.stages[j]);
  }

  lemma SevereIs(m: Machine, ev: Evidence, stage: Stage)
    ensures Severe(m, ev, stage) <==> SevereResult(m, ev, stage)
  {
  }

  /** A stage is entered exactly when another approval leaves none of its dependencies open. */
  lemma EntersIff(m: Machine, st: State, e: Event, j: nat)
    requires StrictlyOrdered(m.stages) && j !in st && j < |m.stages|
    ensures j in Step(m, st, e) <==>
      && (e.Submit? || e.Approve?) && e.a.stage in st && e.a.stage + 1 < |m.stages|
      && st[e.a.stage] != Approved && IsApproved(Step(m, st, e), e.a.stage)
      && forall g :: g in m.stages[j].entryGates && g.kind == DependencyGate ==>
           exists k :: 0 <= k < |m.stages| && m.stages[k].key == g.dependsOn && (k == e.a.stage || IsApproved(st, k))
  {
    var i := StageOf(e);
    if i in st && i < |m.stages| {
      var granted := st[i := Approved];
      forall k | 0 <= k < |m.stages|
        ensures m.stages[k].order in ApprovedOf(m, granted) <==> k == i || IsApproved(st, k)
      {
        ApprovedAt(m, granted, k);
      }
    }
  }

  /** A granting step takes no approval away. */
  lemma GrantsOrRevokes(m: Machine, st: State, e: Event, i: nat, j: nat)
    requires i < |m.stages| && IsApproved(Step(m, st, e), i) && !IsApproved(st, i) && IsApproved(st, j)
    requires j < |m.stages|
    ensures IsApproved(Step(m, st, e), j)
  {
    OnlyAdmittedIsGranted(m, st, e, i);
  }

  /** Re-evaluating an approved stage always reopens it. */
  lemma ReevaluationReopens(m: Machine, st: State, i: nat, ev: Evidence)
    requires i < |m.stages|
    ensures !IsApproved(Step(m, st, Reevaluate(i, ev)), i)
    ensures forall j :: j != i ==> (IsApproved(Step(m, st, Reevaluate(i, ev)), j) <==> IsApproved(st, j))
  {
  }

  // ---- exactly when the approvals stay closed ------------------------------------------------------------------------

  /** Stage j has a blocking dependency on stage i. */
  ghost predicate DependsOn(m: Machine, j: nat, i: nat)
    requires j < |m.stages|
  {
    exists g :: g in m.stages[j].entryGates && g.kind.DependencyGate? && g.blocking
                && FindStage(m.stages, g.dependsOn) == Some(i)
  }

  /** Stage i is approved, and so is some stage other than it and its companion that depends on it. */
  ghost predicate Supports(m: Machine, st: State, i: nat, besides: nat) {
    && IsApproved(st, i)
    && exists j :: 0 <= j < |m.stages| && j != i && j != besides && IsApproved(st, j) && DependsOn(m, j, i)
  }

  /** The request takes an approval from under another stage: a re-evaluation or a rollback, and no other, may. */
  ghost predicate TakesFrom(m: Machine, st: State, e: Event) {
    match e
    case Reevaluate(i, _) => Supports(m, st, i, i)
    case RollBack(i, target, _) =>
      i in st && i < |m.stages| && (Supports(m, st, i, target) || Supports(m, st, target, i))
    case _ => false
  }

  ghost predicate ClosedState(m: Machine, st: State) { Closed(m, ApprovedOf(m, st)) }

  /** Closure, stage by stage. */
  lemma ClosedIs(m: Machine, st: State)
    requires StrictlyOrdered(m.stages)
    ensures ClosedState(m, st) <==>
      forall i, j :: 0 <= i < |m.stages| && 0 <= j < |m.stages| && DependsOn(m, j, i) && IsApproved(st, j) ==>
        IsApproved(st, i)
  {
    forall i | 0 <= i < |m.stages|
      ensures m.stages[i].order in ApprovedOf(m, st) <==> IsApproved(st, i)
    {
      ApprovedAt(m, st, i);
    }
    if ClosedState(m, st) {
      forall i, j | 0 <= i < |m.stages| && 0 <= j < |m.stages| && DependsOn(m, j, i) && IsApproved(st, j)
        ensures IsApproved(st, i)
      {
        var g :| g in m.stages[j].entryGates && g.kind.DependencyGate? && g.blocking
                 && FindStage(m.stages, g.dependsOn) == Some(i);
        assert !GateBlocks(m, ApprovedOf(m, st), g);
      }
    } else {
      var j, g :| 0 <= j < |m.stages| && m.stages[j].order in ApprovedOf(m, st)
                  && g in m.stages[j].entryGates && GateBlocks(m, ApprovedOf(m, st), g);
      var i := FindStage(m.stages, g.dependsOn).value;
      assert DependsOn(m, j, i) && IsApproved(st, j) && !IsApproved(st, i);
    }
  }

  /** An admitted stage's dependencies are approved. */
  lemma AdmittedDependencies(m: Machine, st: State, a: Attempt, i: nat)
    requires StrictlyOrdered(m.stages) && Admitted(m, ApprovedOf(m, st), a) && i < |m.stages|
    requires DependsOn(m, a.stage, i)
    ensures IsApproved(st, i)
  {
    var g :| g in m.stages[a.stage].entryGates && g.kind.DependencyGate? && g.blocking
             && FindStage(m.stages, g.dependsOn) == Some(i);
    assert !GateBlocks(m, ApprovedOf(m, st), g);
    ApprovedAt(m, st, i);
  }

  /** Which approvals a step takes away. */
  ghost predicate Loses(m: Machine, st: State, e: Event, i: nat) {
    match e
    case Reevaluate(k, _) => k == i
    case RollBack(k, target, _) => k in st && k < |m.stages| && (k == i || target == i)
    case _ => false
  }

  lemma LosesIs(m: Machine, st: State, e: Event, i: nat)
    requires i < |m.stages| && IsApproved(st, i)
    ensures IsApproved(Step(m, st, e), i) <==> !Loses(m, st, e, i)
  {
  }

  /** A dependency that a step leaves unmet is one it takes the approval from under. */
  lemma BreaksOnlyBySupport(m: Machine, st: State, e: Event, i: nat, j: nat)
    requires StrictlyOrdered(m.stages) && ClosedState(m, st) && i < |m.stages| && j < |m.stages|
    requires DependsOn(m, j, i) && IsApproved(Step(m, st, e), j) && !IsApproved(Step(m, st, e), i)
    ensures TakesFrom(m, st, e)
  {
    ClosedIs(m, st);
    if !IsApproved(st, j) {
      OnlyAdmittedIsGranted(m, st, e, j);
      AdmittedDependencies(m, st, e.a, i);
      GrantsOrRevokes(m, st, e, j, i);
    }
    LosesIs(m, st, e, i);
    LosesIs(m, st, e, j);
    assert j != i;
    match e
    case Reevaluate(k, _) =>
      assert Supports(m, st, i, k);
    case RollBack(k, target, _) =>
      assert Supports(m, st, i, if k == i then target else k);
    case _ =>
  }

  lemma SupportBreaks(m: Machine, st: State, e: Event, i: nat, besides: nat)
    requires StrictlyOrdered(m.stages) && Supports(m, st, i, besides) && i < |m.stages| && Loses(m, st, e, i)
    requires forall j :: Loses(m, st, e, j) ==> j == i || j == besides
    ensures !ClosedState(m, Step(m, st, e))
  {
    var j :| 0 <= j < |m.stages| && j != i && j != besides && IsApproved(st, j) && DependsOn(m, j, i);
    LosesIs(m, st, e, i);
    LosesIs(m, st, e, j);
    ClosedIs(m, Step(m, st, e));
  }

  lemma DependedOnIsStage(m: Machine, j: nat, i: nat)
    requires j < |m.stages| && DependsOn(m, j, i)
    ensures i < |m.stages|
  {
    var g :| g in m.stages[j].entryGates && g.kind.DependencyGate? && g.blocking
             && FindStage(m.stages, g.dependsOn) == Some(i);
    FindStageIsStage(m.stages, g.dependsOn);
  }

  lemma TakingBreaks(m: Machine, st: State, e: Event)
    requires StrictlyOrdered(m.stages) && TakesFrom(m, st, e)
    ensures !ClosedState(m, Step(m, st, e))
  {
    match e
    case Reevaluate(i, _) =>
      SupportedIsStage(m, st, i, i);
      SupportBreaks(m, st, e, i, i);
    case RollBack(k, target, _) =>
      if Supports(m, st, k, target) {
        SupportBreaks(m, st, e, k, target);
      } else {
        SupportedIsStage(m, st, target, k);
        SupportBreaks(m, st, e, target, k);
      }
  }

  lemma SupportedIsStage(m: Machine, st: State, i: nat, besides: nat)
    requires Supports(m, st, i, besides)
    ensures i < |m.stages|
  {
    var j :| 0 <= j < |m.stages| && j != i && j != besides && IsApproved(st, j) && DependsOn(m, j, i);
    DependedOnIsStage(m, j, i);
  }

  /** From a closed state, a step stays closed exactly when it takes no approval from under another stage. */
  lemma StepStaysClosedIff(m: Machine, st: State, e: Event)
    requires StrictlyOrdered(m.stages) && ClosedState(m, st)
    ensures ClosedState(m, Step(m, st, e)) <==> !TakesFrom(m, st, e)
  {
    if TakesFrom(m, st, e) {
      TakingBreaks(m, st, e);
    } else {
      ClosedIs(m, Step(m, st, e));
      forall i, j | 0 <= i < |m.stages| && 0 <= j < |m.stages| && DependsOn(m, j, i)
                    && IsApproved(Step(m, st, e), j)
        ensures IsApproved(Step(m, st, e), i)
      {
        if !IsApproved(Step(m, st, e), i) {
          BreaksOnlyBySupport(m, st, e, i, j);
        }
      }
    }
  }

  /** Reopening one stage of a closed project leaves it closed exactly when no other approved stage depends on it. */
  lemma ReopeningStaysClosedIff(m: Machine, st: State, i: nat, ev: Evidence)
    requires StrictlyOrdered(m.stages) && ClosedState(m, st) && i < |m.stages| && IsApproved(st, i)
    ensures ClosedState(m, Step(m, st, Reevaluate(i, ev))) <==>
      !exists j :: 0 <= j < |m.stages| && j != i && IsApproved(st, j) && DependsOn(m, j, i)
  {
    StepStaysClosedIff(m, st, Reevaluate(i, ev));
  }

  ghost predicate StepTakes(m: Machine, events: seq<Event>, k: nat)
    requires m.stages != [] && k < |events|
  {
    TakesFrom(m, Run(m, events[..k]), events[k])
  }

  /** No request of the run takes an approval from under another stage. */
  ghost predicate Steady(m: Machine, events: seq<Event>)
    requires m.stages != []
  {
    forall k :: 0 <= k < |events| ==> !StepTakes(m, events, k)
  }

  ghost predicate AlwaysClosed(m: Machine, events: seq<Event>)
    requires m.stages != []
  {
    forall k :: 0 <= k <= |events| ==> ClosedState(m, Run(m, events[..k]))
  }

  lemma StartIsClosed(m: Machine)
    requires StrictlyOrdered(m.stages) && m.stages != []
    ensures ClosedState(m, Start(m))
  {
    ClosedIs(m, Start(m));
  }

  lemma RunTo(m: Machine, events: seq<Event>, k: nat)
    requires m.stages != [] && k < |events|
    ensures Run(m, events[..k + 1]) == Step(m, Run(m, events[..k]), events[k])
  {
    assert events[..k + 1][..k] == events[..k];
  }

  lemma {:induction false} SteadyIsClosed(m: Machine, events: seq<Event>, k: nat)
    requires StrictlyOrdered(m.stages) && m.stages != [] && Steady(m, events) && k <= |events|
    ensures ClosedState(m, Run(m, events[..k]))
  {
    if k == 0 {
      StartIsClosed(m);
      assert events[..0] == [];
    } else {
      SteadyIsClosed(m, events, k - 1);
      RunTo(m, events, k - 1);
      assert !StepTakes(m, events, k - 1);
      StepStaysClosedIff(m, Run(m, events[..k - 1]), events[k - 1]);
    }
  }

  /** The approvals of a run are closed throughout exactly when no request takes one from under another stage. */
  lemma ApprovalsStayClosedIff(m: Machine, events: seq<Event>)
    requires StrictlyOrdered(m.stages) && m.stages != []
    ensures AlwaysClosed(m, events) <==> Steady(m, events)
  {
    if Steady(m, events) {
      forall k | 0 <= k <= |events|
        ensures ClosedState(m, Run(m, events[..k]))
      {
        SteadyIsClosed(m, events, k);
      }
    }
    if AlwaysClosed(m, events) {
      forall k | 0 <= k < |events|
        ensures !StepTakes(m, events, k)
      {
        RunTo(m, events, k);
        assert ClosedState(m, Run(m, events[..k])) && ClosedState(m, Run(m, events[..k + 1]));
        StepStaysClosedIff(m, Run(m, events[..k]), events[k]);
      }
    }
  }

  // ---- the concurrent graph ------------------------------------------------------------------------------------

  lemma MachineOrdered(m: Machine, defs: seq<Stage>)
    requires ConcurrentMachine(m, defs)
    ensures StrictlyOrdered(m.stages) && m.stages != []
  {
    ByOrderIsOrdered(defs);
    SomeStage(defs);
  }

  lemma {:induction false} SomeStage(defs: seq<Stage>)
    requires defs != []
    ensures ByOrder(defs) != []
  {
    var n := |defs| - 1;
    InsertSome(ByOrder(defs[..n]), defs[n]);
  }

  lemma InsertSome(sorted: seq<Stage>, d: Stage)
    ensures Insert(sorted, d) != []
  {
  }

  lemma DependsIsWaits(m: Machine, defs: seq<Stage>, i: nat, j: nat)
    requires ConcurrentMachine(m, defs) && i < |m.stages| && j < |m.stages|
    ensures DependsOn(m, i, j) <==> WaitsFor(m, i, j)
  {
    if WaitsFor(m, i, j) {
      DependencyExists(m, defs, i, j);
    }
    if DependsOn(m, i, j) {
      var g :| g in m.stages[i].entryGates && g.kind.DependencyGate? && g.blocking
               && FindStage(m.stages, g.dependsOn) == Some(j);
      DependencyOf(m, defs, {}, i, g);
    }
  }

  lemma ClosedWaitsFor(m: Machine, defs: seq<Stage>, st: State, i: nat, j: nat)
    requires ConcurrentMachine(m, defs) && ClosedState(m, st) && i < |m.stages| && j < |m.stages|
    requires WaitsFor(m, i, j) && IsApproved(st, i)
    ensures IsApproved(st, j)
  {
    MachineOrdered(m, defs);
    ClosedIs(m, st);
    DependsIsWaits(m, defs, i, j);
  }

  lemma FirstBelowHandover(m: Machine, defs: seq<Stage>, st: State)
    requires ConcurrentMachine(m, defs) && |m.stages| >= 3 && ClosedState(m, st)
    requires IsApproved(st, |m.stages| - 1)
    ensures IsApproved(st, 0)
  {
    ClosedWaitsFor(m, defs, st, |m.stages| - 1, 1);
    ClosedWaitsFor(m, defs, st, 1, 0);
  }

  lemma HandoverInClosed(m: Machine, defs: seq<Stage>, st: State, j: nat)
    requires ConcurrentMachine(m, defs) && |m.stages| != 2 && ClosedState(m, st) && j < |m.stages|
    requires IsApproved(st, |m.stages| - 1)
    ensures IsApproved(st, j)
  {
    if |m.stages| >= 3 {
      if j == 0 {
        FirstBelowHandover(m, defs, st);
      } else if j + 1 < |m.stages| {
        ClosedWaitsFor(m, defs, st, |m.stages| - 1, j);
      }
    }
  }

  ghost predicate AllApproved(m: Machine, st: State) {
    forall j :: 0 <= j < |m.stages| ==> IsApproved(st, j)
  }

  // ---- exactly when an approved handover covers every stage -----------------------------------------------------

  /** If the last stage is approved, every stage is. */
  ghost predicate Covers(m: Machine, st: State)
    requires m.stages != []
  {
    IsApproved(st, |m.stages| - 1) ==> AllApproved(m, st)
  }

  /** The last stage would be granted while the first, on which it has no gate, is not approved. */
  ghost predicate AboveOpenFirst(m: Machine, st: State, a: Attempt) {
    a.stage > 0 && a.stage + 1 == |m.stages| && !IsApproved(st, 0) && Admitted(m, ApprovedOf(m, st), a)
  }

  /** The request takes an approval away below handover and leaves handover, or grants it above an open first stage. */
  ghost predicate Spoils(m: Machine, st: State, e: Event)
    requires m.stages != []
  {
    var last := |m.stages| - 1;
    match e
    case Reevaluate(i, _) => i < last && IsApproved(st, last)
    case RollBack(i, target, _) => i < last && target != last && IsApproved(st, last)
    case Submit(a, auto) =>
      auto && a.stage in st && !st[a.stage].Approved? && !st[a.stage].OnHold? && AboveOpenFirst(m, st, a)
    case Approve(a) => a.stage in st && st[a.stage].PendingApproval? && AboveOpenFirst(m, st, a)
    case _ => false
  }

  /** An admitted last stage has every stage approved but perhaps the first. */
  lemma AdmittedLast(m: Machine, defs: seq<Stage>, st: State, a: Attempt, j: nat)
    requires ConcurrentMachine(m, defs) && Admitted(m, ApprovedOf(m, st), a) && a.stage + 1 == |m.stages|
    requires 0 < j < a.stage
    ensures IsApproved(st, j)
  {
    MachineOrdered(m, defs);
    DependsIsWaits(m, defs, a.stage, j);
    AdmittedDependencies(m, st, a, j);
  }

  /** Handover newly granted covers every stage exactly when the first was approved, or is handover itself. */
  lemma GrantedCoversIff(m: Machine, defs: seq<Stage>, st: State, e: Event)
    requires ConcurrentMachine(m, defs) && m.stages != []
    requires !IsApproved(st, |m.stages| - 1) && IsApproved(Step(m, st, e), |m.stages| - 1)
    ensures AllApproved(m, Step(m, st, e)) <==> !Spoils(m, st, e)
  {
    var last := |m.stages| - 1;
    OnlyAdmittedIsGranted(m, st, e, last);
    forall j | 0 < j < last
      ensures IsApproved(Step(m, st, e), j)
    {
      AdmittedLast(m, defs, st, e.a, j);
      GrantsOrRevokes(m, st, e, last, j);
    }
    if last > 0 {
      FirstAtGrant(m, st, e, last);
    }
  }

  /** Granting one stage leaves the first as it was. */
  lemma FirstAtGrant(m: Machine, st: State, e: Event, i: nat)
    requires 0 < i < |m.stages| && !IsApproved(st, i) && IsApproved(Step(m, st, e), i)
    ensures IsApproved(Step(m, st, e), 0) <==> IsApproved(st, 0)
  {
    if IsApproved(st, 0) {
      GrantsOrRevokes(m, st, e, i, 0);
    } else if IsApproved(Step(m, st, e), 0) {
      OnlyAdmittedIsGranted(m, st, e, i);
      OnlyAdmittedIsGranted(m, st, e, 0);
    }
  }

  /** Below an approved handover that covers them, stages are lost exactly by requests that spoil it. */
  lemma KeptCoversIff(m: Machine, st: State, e: Event)
    requires m.stages != [] && AllApproved(m, st) && IsApproved(Step(m, st, e), |m.stages| - 1)
    ensures AllApproved(m, Step(m, st, e)) <==> !Spoils(m, st, e)
  {
    var last := |m.stages| - 1;
    assert IsApproved(st, last) && IsApproved(st, 0);
    LosesIs(m, st, e, last);
    forall i | 0 <= i < |m.stages|
      ensures IsApproved(Step(m, st, e), i) <==> !Loses(m, st, e, i)
    {
      LosesIs(m, st, e, i);
    }
    match e
    case Reevaluate(i, _) =>
      if i < last {
        assert Loses(m, st, e, i);
      }
    case RollBack(i, target, _) =>
      if i < last {
        assert IsApproved(st, i) && Loses(m, st, e, i);
      }
    case _ =>
  }

  /** A request that spoils handover ends with handover approved. */
  lemma SpoilsKeeps(m: Machine, st: State, e: Event)
    requires m.stages != [] && Spoils(m, st, e)
    ensures IsApproved(Step(m, st, e), |m.stages| - 1)
  {
    var last := |m.stages| - 1;
    if e.Reevaluate? || e.RollBack? {
      LosesIs(m, st, e, last);
    }
  }

  lemma ApprovedCoversIff(m: Machine, defs: seq<Stage>, st: State, e: Event)
    requires ConcurrentMachine(m, defs) && m.stages != [] && Covers(m, st)
    requires IsApproved(Step(m, st, e), |m.stages| - 1)
    ensures AllApproved(m, Step(m, st, e)) <==> !Spoils(m, st, e)
  {
    if IsApproved(st, |m.stages| - 1) {
      KeptCoversIff(m, st, e);
    } else {
      GrantedCoversIff(m, defs, st, e);
    }
  }

  lemma CoversIs(m: Machine, st: State, spoilt: bool)
    requires m.stages != [] && (spoilt ==> IsApproved(st, |m.stages| - 1))
    requires IsApproved(st, |m.stages| - 1) ==> (AllApproved(m, st) <==> !spoilt)
    ensures Covers(m, st) <==> !spoilt
  {
  }

  /** The request decides it before it is made. */
  lemma StepCoversIff(m: Machine, defs: seq<Stage>, st: State, e: Event)
    requires ConcurrentMachine(m, defs) && m.stages != [] && Covers(m, st)
    ensures Covers(m, Step(m, st, e)) <==> !Spoils(m, st, e)
  {
    if IsApproved(Step(m, st, e), |m.stages| - 1) {
      ApprovedCoversIff(m, defs, st, e);
    }
    if Spoils(m, st, e) {
      SpoilsKeeps(m, st, e);
    }
    CoversIs(m, Step(m, st, e), Spoils(m, st, e));
  }

  ghost predicate StepSpoils(m: Machine, events: seq<Event>, k: nat)
    requires m.stages != [] && k < |events|
  {
    Spoils(m, Run(m, events[..k]), events[k])
  }

  ghost predicate NeverSpoilt(m: Machine, events: seq<Event>)
    requires m.stages != []
  {
    forall k :: 0 <= k < |events| ==> !StepSpoils(m, events, k)
  }

  /** At every point of the run an approved handover means that every stage is approved. */
  ghost predicate AlwaysCovers(m: Machine, events: seq<Event>)
    requires m.stages != []
  {
    forall k :: 0 <= k <= |events| ==> Covers(m, Run(m, events[..k]))
  }

  lemma {:induction false} UnspoiltCovers(m: Machine, defs: seq<Stage>, events: seq<Event>, k: nat)
    requires ConcurrentMachine(m, defs) && m.stages != [] && NeverSpoilt(m, events) && k <= |events|
    ensures Covers(m, Run(m, events[..k]))
  {
    if k == 0 {
      assert events[..0] == [];
    } else {
      UnspoiltCovers(m, defs, events, k - 1);
      RunTo(m, events, k - 1);
      assert !StepSpoils(m, events, k - 1);
      StepCoversIff(m, defs, Run(m, events[..k - 1]), events[k - 1]);
    }
  }

  /**
   Throughout a run an approved handover means that every stage is approved, if and only if no request
   of the run reopens a stage below an approved handover or has it granted above an open first stage.
   */
  lemma HandoverCoversIff(m: Machine, defs: seq<Stage>, events: seq<Event>)
    requires ConcurrentMachine(m, defs) && m.stages != []
    ensures AlwaysCovers(m, events) <==> NeverSpoilt(m, events)
  {
    if NeverSpoilt(m, events) {
      forall k | 0 <= k <= |events|
        ensures Covers(m, Run(m, events[..k]))
      {
        UnspoiltCovers(m, defs, events, k);
      }
    }
    if AlwaysCovers(m, events) {
      forall k | 0 <= k < |events|
        ensures !StepSpoils(m, events, k)
      {
        RunTo(m, events, k);
        assert Covers(m, Run(m, events[..k])) && Covers(m, Run(m, events[..k + 1]));
        StepCoversIff(m, defs, Run(m, events[..k]), events[k]);
      }
    }
  }

  /** In a run that takes no approval from under another, handover is final, unless there are two stages. */
  lemma HandoverMeansAll(m: Machine, defs: seq<Stage>, events: seq<Event>)
    requires ConcurrentMachine(m, defs) && m.stages != [] && |m.stages| != 2 && Steady(m, events)
    requires IsApproved(Run(m, events), |m.stages| - 1)
    ensures AllApproved(m, Run(m, events))
  {
    MachineOrdered(m, defs);
    SteadyIsClosed(m, events, |events|);
    assert events[..|events|] == events;
    forall j | 0 <= j < |m.stages|
      ensures IsApproved(Run(m, events), j)
    {
      HandoverInClosed(m, defs, Run(m, events), j);
    }
  }

  /** Re-evaluating the first stage after handover leaves handover approved without it. */
  lemma HandoverOutlivesReopening(m: Machine, events: seq<Event>, ev: Evidence)
    requires |m.stages| >= 2 && IsApproved(Run(m, events), |m.stages| - 1)
    ensures var t := Run(m, events + [Reevaluate(0, ev)]);
            IsApproved(t, |m.stages| - 1) && !IsApproved(t, 0)
  {
    RunSnoc(m, events, Reevaluate(0, ev));
    ReevaluationReopens(m, Run(m, events), 0, ev);
  }

  lemma RunSnoc(m: Machine, events: seq<Event>, e: Event)
    requires m.stages != []
    ensures Run(m, events + [e]) == Step(m, Run(m, events), e)
  {
    assert (events + [e])[..|events|] == events;
  }

  // ---- stages in any order ----------------------------------------------------------------------------------------

  /** Every stage it waits for is approved. */
  ghost predicate WaitsMet(m: Machine, st: State, i: nat) {
    forall j :: 0 <= j < |m.stages| && WaitsFor(m, i, j) ==> IsApproved(st, j)
  }

  /** Whatever waits for nothing more has been entered. */
  ghost predicate Opened(m: Machine, st: State) {
    forall i :: 0 <= i < |m.stages| && WaitsMet(m, st, i) ==> i in st
  }

  lemma WaitsAreDependencies(m: Machine, defs: seq<Stage>, st: State, i: nat, g: Gate)
    requires ConcurrentMachine(m, defs) && i < |m.stages| && WaitsMet(m, st, i)
    requires g in m.stages[i].entryGates && g.kind.DependencyGate?
    ensures exists j :: 0 <= j < |m.stages| && m.stages[j].key == g.dependsOn
                        && m.stages[j].order in ApprovedOf(m, st)
  {
    MachineOrdered(m, defs);
    DependencyOf(m, defs, {}, i, g);
    FindStageIsStage(m.stages, g.dependsOn);
    var j :| 0 <= j < |m.stages| && WaitsFor(m, i, j) && FindStage(m.stages, g.dependsOn) == Some(j);
    ApprovedAt(m, st, j);
  }

  lemma WaitsMetUnlocks(m: Machine, defs: seq<Stage>, st: State, i: nat)
    requires ConcurrentMachine(m, defs) && i < |m.stages| && WaitsMet(m, st, i)
    ensures Unlocked(m, ApprovedOf(m, st), i)
  {
    forall g | g in m.stages[i].entryGates && g.kind.DependencyGate?
      ensures exists j :: 0 <= j < |m.stages| && m.stages[j].key == g.dependsOn
                          && m.stages[j].order in ApprovedOf(m, st)
    {
      WaitsAreDependencies(m, defs, st, i, g);
    }
  }

  lemma StartOpened(m: Machine)
    requires m.stages != [] && |m.stages| != 2
    ensures Opened(m, Start(m))
  {
    forall i | 0 <= i < |m.stages| && WaitsMet(m, Start(m), i)
      ensures i in Start(m)
    {
      if i > 0 {
        assert WaitsFor(m, i, if i + 1 == |m.stages| then 1 else 0);
      }
    }
  }

  lemma EnteredKeeps(m: Machine, st: State, i: nat)
    requires i < |m.stages|
    ensures IsApproved(Entered(m, st), i) <==> IsApproved(st, i)
    ensures i in Entered(m, st) <==> i in st || Unlocked(m, ApprovedOf(m, st), i)
    ensures i in st ==> i in Entered(m, st) && Entered(m, st)[i] == st[i]
  {
  }

  lemma GrantedIs(m: Machine, st: State, i: nat, k: nat)
    requires i < |m.stages| && k < |m.stages|
    ensures IsApproved(Granted(m, st, i), k) <==> k == i || IsApproved(st, k)
    ensures k in st && k != i ==> k in Granted(m, st, i) && Granted(m, st, i)[k] == st[k]
  {
    EnteredKeeps(m, st[i := Approved], k);
  }

  lemma GrantedOpened(m: Machine, defs: seq<Stage>, st: State, i: nat, k: nat)
    requires ConcurrentMachine(m, defs) && Opened(m, st) && i < |m.stages| && k < |m.stages|
    requires WaitsMet(m, Granted(m, st, i), k)
    ensures k in Granted(m, st, i)
  {
    forall j | 0 <= j < |m.stages| && WaitsFor(m, k, j)
      ensures IsApproved(st[i := Approved], j)
    {
      GrantedIs(m, st, i, j);
    }
    if i + 1 == |m.stages| {
      assert forall j :: 0 <= j < |m.stages| && WaitsFor(m, k, j) ==> j != i && IsApproved(st, j);
      assert WaitsMet(m, st, k);
    } else {
      assert WaitsMet(m, st[i := Approved], k);
      WaitsMetUnlocks(m, defs, st[i := Approved], k);
      EnteredKeeps(m, st[i := Approved], k);
    }
  }

  /** A step grants one stage, or approves nothing new; either way nothing entered is lost. */
  lemma StepKinds(m: Machine, st: State, e: Event, k: nat)
    requires k < |m.stages|
    ensures var t := Step(m, st, e);
            || (StageOf(e) < |m.stages| && t == Granted(m, st, StageOf(e)))
            || ((IsApproved(t, k) ==> IsApproved(st, k)) && (k in st ==> k in t))
  {
  }

  lemma StepOpened(m: Machine, defs: seq<Stage>, st: State, e: Event)
    requires ConcurrentMachine(m, defs) && Opened(m, st)
    ensures Opened(m, Step(m, st, e))
  {
    var t := Step(m, st, e);
    forall k | 0 <= k < |m.stages| && WaitsMet(m, t, k)
      ensures k in t
    {
      if StageOf(e) < |m.stages| && t == Granted(m, st, StageOf(e)) {
        GrantedOpened(m, defs, st, StageOf(e), k);
      } else {
        forall j | 0 <= j < |m.stages| && WaitsFor(m, k, j)
          ensures IsApproved(st, j)
        {
          StepKinds(m, st, e, j);
        }
        assert WaitsMet(m, st, k);
        StepKinds(m, st, e, k);
      }
    }
  }

  lemma {:induction false} RunOpened(m: Machine, defs: seq<Stage>, events: seq<Event>)
    requires ConcurrentMachine(m, defs) && m.stages != [] && |m.stages| != 2
    ensures Opened(m, Run(m, events))
  {
    if events == [] {
      StartOpened(m);
    } else {
      RunOpened(m, defs, events[..|events| - 1]);
      StepOpened(m, defs, Run(m, events[..|events| - 1]), events[|events| - 1]);
    }
  }

  /** The first stage is entered, and whatever waits for nothing more once the first is approved. */
  ghost predicate Reached(m: Machine, st: State) {
    0 in st && (IsApproved(st, 0) ==> Opened(m, st))
  }

  lemma StartReached(m: Machine)
    requires m.stages != []
    ensures Reached(m, Start(m))
  {
  }

  lemma GrantedReached(m: Machine, defs: seq<Stage>, st: State, i: nat)
    requires ConcurrentMachine(m, defs) && Reached(m, st) && i < |m.stages|
    ensures Reached(m, Granted(m, st, i))
  {
    var t := Granted(m, st, i);
    GrantedIs(m, st, i, 0);
    if IsApproved(t, 0) {
      forall k | 0 <= k < |m.stages| && WaitsMet(m, t, k)
        ensures k in t
      {
        if i + 1 == |m.stages| && i > 0 {
          GrantedOpened(m, defs, st, i, k);
        } else if i + 1 < |m.stages| {
          OpensWhatWaits(m, defs, st, i, k);
        }
      }
    }
  }

  lemma OpensWhatWaits(m: Machine, defs: seq<Stage>, st: State, i: nat, k: nat)
    requires ConcurrentMachine(m, defs) && i + 1 < |m.stages| && k < |m.stages|
    requires WaitsMet(m, Granted(m, st, i), k)
    ensures k in Granted(m, st, i)
  {
    forall j | 0 <= j < |m.stages| && WaitsFor(m, k, j)
      ensures IsApproved(st[i := Approved], j)
    {
      GrantedIs(m, st, i, j);
    }
    WaitsMetUnlocks(m, defs, st[i := Approved], k);
    EnteredKeeps(m, st[i := Approved], k);
  }

  lemma StepReached(m: Machine, defs: seq<Stage>, st: State, e: Event)
    requires ConcurrentMachine(m, defs) && m.stages != [] && Reached(m, st)
    ensures Reached(m, Step(m, st, e))
  {
    var t := Step(m, st, e);
    if StageOf(e) < |m.stages| && t == Granted(m, st, StageOf(e)) {
      GrantedReached(m, defs, st, StageOf(e));
    } else {
      StepKinds(m, st, e, 0);
      if IsApproved(t, 0) {
        StepOpened(m, defs, st, e);
      }
    }
  }

  lemma {:induction false} RunReached(m: Machine, defs: seq<Stage>, events: seq<Event>)
    requires ConcurrentMachine(m, defs) && m.stages != []
    ensures Reached(m, Run(m, events))
  {
    if events == [] {
      StartReached(m);
    } else {
      RunReached(m, defs, events[..|events| - 1]);
      StepReached(m, defs, Run(m, events[..|events| - 1]), events[|events| - 1]);
    }
  }

  /** With its evidence in place and its dependencies approved, a stage is admitted. */
  lemma ReadyIsAdmitted(m: Machine, defs: seq<Stage>, st: State, a: Attempt)
    requires ConcurrentMachine(m, defs) && a.stage < |m.stages| && a.otherChecksPass
    requires FullEvidence(m, a.evidence, m.stages[a.stage])
    requires WaitsMet(m, st, a.stage)
    ensures Admitted(m, ApprovedOf(m, st), a)
  {
    MachineOrdered(m, defs);
    forall j | 0 <= j < |m.stages| && WaitsFor(m, a.stage, j)
      ensures m.stages[j].order in ApprovedOf(m, st)
    {
      ApprovedAt(m, st, j);
    }
    AdmittedWhenDependenciesAre(m, defs, ApprovedOf(m, st), a);
  }

  /** An attempt that is in time: entered, not on hold, its evidence complete and its waits met. */
  lemma SubmitGrants(m: Machine, defs: seq<Stage>, st: State, a: Attempt)
    requires ConcurrentMachine(m, defs) && a.stage < |m.stages| && a.otherChecksPass && a.stage in st
    requires !st[a.stage].OnHold? && !IsApproved(st, a.stage) && WaitsMet(m, st, a.stage)
    requires FullEvidence(m, a.evidence, m.stages[a.stage])
    ensures Step(m, st, Submit(a, true)) == Granted(m, st, a.stage)
    ensures Step(m, st, Submit(a, false)) == st[a.stage := PendingApproval]
    ensures Step(m, st[a.stage := PendingApproval], Approve(a)) == Granted(m, st[a.stage := PendingApproval], a.stage)
  {
    ReadyIsAdmitted(m, defs, st, a);
    var parked := st[a.stage := PendingApproval];
    forall j | 0 <= j < |m.stages| && WaitsFor(m, a.stage, j)
      ensures IsApproved(parked, j)
    {
      assert j != a.stage;
    }
    ReadyIsAdmitted(m, defs, parked, a);
  }

  /** A stage that is not approved while everything it waits for is. */
  lemma NextInLine(m: Machine, defs: seq<Stage>, st: State, missing: nat) returns (next: nat)
    requires ConcurrentMachine(m, defs) && missing < |m.stages| && !IsApproved(st, missing)
    ensures next < |m.stages| && !IsApproved(st, next) && WaitsMet(m, st, next)
  {
    var last := |m.stages| - 1;
    if !IsApproved(st, 0) {
      next := 0;
    } else if j :| 0 < j < last && !IsApproved(st, j) {
      next := j;
    } else {
      next := last;
      assert missing == last;
    }
  }

  // ---- whole sequences of approvals --------------------------------------------------------------------------------

  function Submits(attempts: seq<Attempt>): seq<Event> {
    seq(|attempts|, k requires 0 <= k < |attempts| => Submit(attempts[k], true))
  }

  /** Each attempt has its evidence, and comes after the stages it waits for. */
  ghost predicate InTime(m: Machine, attempts: seq<Attempt>, k: nat)
    requires k < |attempts|
  {
    var a := attempts[k];
    && a.stage < |m.stages| && a.otherChecksPass && FullEvidence(m, a.evidence, m.stages[a.stage])
    && forall j :: 0 <= j < |m.stages| && WaitsFor(m, a.stage, j) ==> Tried(attempts[..k], j)
  }

  predicate Tried(attempts: seq<Attempt>, i: nat) {
    exists k :: 0 <= k < |attempts| && attempts[k].stage == i
  }

  ghost predicate AllInTime(m: Machine, attempts: seq<Attempt>) {
    forall k :: 0 <= k < |attempts| ==> InTime(m, attempts, k)
  }

  /** Nothing is on hold, and exactly the tried stages are approved. */
  ghost predicate Smooth(m: Machine, attempts: seq<Attempt>, st: State) {
    && (forall i :: i in st ==> !st[i].OnHold?)
    && (forall i :: 0 <= i < |m.stages| ==> (IsApproved(st, i) <==> Tried(attempts, i)))
  }

  lemma EntersCalmly(m: Machine, st: State, i: nat)
    requires i < |m.stages| && i in Entered(m, st) && i !in st
    ensures !Entered(m, st)[i].OnHold?
  {
    assert !Severe(m, NO_EVIDENCE, m.stages[i]);
  }

  lemma GrantedCalm(m: Machine, st: State, i: nat)
    requires i < |m.stages| && forall k :: k in st ==> !st[k].OnHold?
    ensures forall k :: k in Granted(m, st, i) ==> !Granted(m, st, i)[k].OnHold?
  {
    var u := st[i := Approved];
    forall k | k in Entered(m, u)
      ensures !Entered(m, u)[k].OnHold?
    {
      if k !in u {
        EntersCalmly(m, u, k);
      }
    }
  }

  lemma TriedSnoc(attempts: seq<Attempt>, i: nat)
    requires attempts != []
    ensures var n := |attempts| - 1;
            Tried(attempts, i) <==> Tried(attempts[..n], i) || attempts[n].stage == i
  {
    var n := |attempts| - 1;
    if Tried(attempts[..n], i) {
      var k :| 0 <= k < n && attempts[..n][k].stage == i;
      assert attempts[k].stage == i;
    }
    if k :| 0 <= k < n && attempts[k].stage == i {
      assert attempts[..n][k].stage == i;
    }
  }

  lemma InTimePrefix(m: Machine, attempts: seq<Attempt>)
    requires attempts != [] && AllInTime(m, attempts)
    ensures AllInTime(m, attempts[..|attempts| - 1])
  {
    var n := |attempts| - 1;
    forall k | 0 <= k < n
      ensures InTime(m, attempts[..n], k)
    {
      assert InTime(m, attempts, k) && attempts[..n][..k] == attempts[..k];
    }
  }

  lemma SmoothStep(m: Machine, defs: seq<Stage>, attempts: seq<Attempt>, st: State)
    requires ConcurrentMachine(m, defs) && attempts != [] && InTime(m, attempts, |attempts| - 1)
    requires Smooth(m, attempts[..|attempts| - 1], st) && Opened(m, st)
    ensures Smooth(m, attempts, Step(m, st, Submit(attempts[|attempts| - 1], true)))
  {
    var n := |attempts| - 1;
    var a := attempts[n];
    assert WaitsMet(m, st, a.stage);
    if !IsApproved(st, a.stage) {
      SubmitGrants(m, defs, st, a);
      GrantedCalm(m, st, a.stage);
    }
    forall i | 0 <= i < |m.stages|
      ensures IsApproved(Step(m, st, Submit(a, true)), i) <==> Tried(attempts, i)
    {
      TriedSnoc(attempts, i);
      GrantedIs(m, st, a.stage, i);
    }
  }

  lemma StartSmooth(m: Machine)
    requires m.stages != []
    ensures Smooth(m, [], Start(m))
  {
    assert !Severe(m, NO_EVIDENCE, m.stages[0]);
  }

  lemma SubmitsSnoc(m: Machine, attempts: seq<Attempt>)
    requires m.stages != [] && attempts != []
    ensures var n := |attempts| - 1;
            Run(m, Submits(attempts)) == Step(m, Run(m, Submits(attempts[..n])), Submit(attempts[n], true))
  {
    var n := |attempts| - 1;
    RunSnoc(m, Submits(attempts[..n]), Submit(attempts[n], true));
    assert Submits(attempts) == Submits(attempts[..n]) + [Submit(attempts[n], true)];
  }

  /** Stages may be approved in any order at all that lets each come after those it waits for. */
  lemma {:induction false} AnyOrderGoesThrough(m: Machine, defs: seq<Stage>, attempts: seq<Attempt>)
    requires ConcurrentMachine(m, defs) && m.stages != [] && |m.stages| != 2 && AllInTime(m, attempts)
    ensures Smooth(m, attempts, Run(m, Submits(attempts)))
  {
    if attempts == [] {
      StartSmooth(m);
    } else {
      var before := attempts[..|attempts| - 1];
      InTimePrefix(m, attempts);
      AnyOrderGoesThrough(m, defs, before);
      RunOpened(m, defs, Submits(before));
      assert InTime(m, attempts, |attempts| - 1);
      SmoothStep(m, defs, attempts, Run(m, Submits(before)));
      SubmitsSnoc(m, attempts);
    }
  }

  /** In particular the stages strictly between the first and the last, once the first is tried. */
  lemma MiddleInAnyOrder(m: Machine, defs: seq<Stage>, attempts: seq<Attempt>)
    requires ConcurrentMachine(m, defs) && |m.stages| >= 3 && attempts != [] && attempts[0].stage == 0
    requires forall k :: 0 <= k < |attempts| ==>
      && attempts[k].stage < |m.stages| - 1 && attempts[k].otherChecksPass
      && FullEvidence(m, attempts[k].evidence, m.stages[attempts[k].stage])
    ensures forall i :: 0 <= i < |m.stages| ==>
      (IsApproved(Run(m, Submits(attempts)), i) <==> Tried(attempts, i))
  {
    forall k | 0 <= k < |attempts|
      ensures InTime(m, attempts, k)
    {
      if attempts[k].stage > 0 {
        assert attempts[..k][0].stage == 0;
      }
    }
    AnyOrderGoesThrough(m, defs, attempts);
  }

  // ---- how far handover can be trusted -----------------------------------------------------------------------------

  /** Stages with nothing to show but their place. */
  predicate Bare(defs: seq<Stage>) {
    forall i :: 0 <= i < |defs| ==> defs[i].entryGates == [] && defs[i].qualityGates == []
  }

  lemma BareEvidence(m: Machine, defs: seq<Stage>, i: nat)
    requires ConcurrentMachine(m, defs) && Bare(defs) && i < |m.stages|
    ensures FullEvidence(m, NO_EVIDENCE, m.stages[i])
  {
    ByOrderIsOrdered(defs);
    KeptAreNotDependencies(ByOrder(defs)[i].entryGates);
    NewDependenciesAre(ByOrder(defs), i);
    forall g | g in m.stages[i].entryGates
      ensures !GateWaits(m, NO_EVIDENCE, g)
    {
      DependencyOf(m, defs, {}, i, g);
    }
  }

  function BareAttempts(n: nat): seq<Attempt> {
    seq(n, i requires 0 <= i < n => Attempt(i, NO_EVIDENCE, true))
  }

  lemma BareInTime(m: Machine, defs: seq<Stage>)
    requires ConcurrentMachine(m, defs) && Bare(defs)
    ensures AllInTime(m, BareAttempts(|m.stages|))
  {
    var attempts := BareAttempts(|m.stages|);
    forall k | 0 <= k < |attempts|
      ensures InTime(m, attempts, k)
    {
      BareEvidence(m, defs, k);
      forall j | 0 <= j < |m.stages| && WaitsFor(m, k, j)
        ensures Tried(attempts[..k], j)
      {
        assert attempts[..k][j].stage == j;
      }
    }
  }

  function ThreeStages(): seq<Stage> {
    [Stage("a", 1, Sequential, [], [], []), Stage("b", 2, Sequential, [], [], []), Stage("c", 3, Sequential, [], [], [])]
  }

  function MachineOf(defs: seq<Stage>): Machine { Machine(ConcurrentVariant(defs), map[]) }

  lemma MachineOfIs(defs: seq<Stage>)
    requires defs != [] && StrictlyOrdered(defs)
    requires forall i, j :: 0 <= i < j < |defs| ==> defs[i].key != defs[j].key
    ensures ConcurrentMachine(MachineOf(defs), defs) && |MachineOf(defs).stages| == |defs|
  {
    OrderedStays(defs);
  }

  /** A run of three stages, each approved in turn and the first re-evaluated, ends with handover alone of its kind. */
  lemma ReopenedBelowHandover()
    ensures var m := MachineOf(ThreeStages());
            var t := Run(m, Submits(BareAttempts(3)) + [Reevaluate(0, NO_EVIDENCE)]);
            ConcurrentMachine(m, ThreeStages()) && |m.stages| == 3 && IsApproved(t, 2) && !IsApproved(t, 0)
  {
    var m, attempts := MachineOf(ThreeStages()), BareAttempts(3);
    MachineOfIs(ThreeStages());
    BareInTime(m, ThreeStages());
    AnyOrderGoesThrough(m, ThreeStages(), attempts);
    assert attempts[2].stage == 2;
    HandoverOutlivesReopening(m, Submits(attempts), NO_EVIDENCE);
  }

  /** After the first two of three stages the last is entered, not approved and not on hold. */
  lemma MiddleDone(m: Machine, defs: seq<Stage>)
    requires ConcurrentMachine(m, defs) && Bare(defs) && |m.stages| == 3
    ensures var st := Run(m, Submits(BareAttempts(2)));
            IsApproved(st, 0) && IsApproved(st, 1) && 2 in st && !st[2].Approved? && !st[2].OnHold?
  {
    var attempts := BareAttempts(2);
    BareInTime(m, defs);
    InTimePrefix(m, BareAttempts(3));
    assert BareAttempts(3)[..2] == attempts;
    AnyOrderGoesThrough(m, defs, attempts);
    RunOpened(m, defs, Submits(attempts));
    assert attempts[0].stage == 0 && attempts[1].stage == 1;
    assert WaitsMet(m, Run(m, Submits(attempts)), 2);
    assert !Tried(attempts, 2);
  }

  /** Reopening the first stage does not keep the last from being granted, if the middle is done. */
  lemma GrantedPastFirst(m: Machine, defs: seq<Stage>, st: State, a: Attempt)
    requires ConcurrentMachine(m, defs) && |m.stages| == 3 && a.stage == 2 && a.otherChecksPass
    requires FullEvidence(m, a.evidence, m.stages[2])
    requires IsApproved(st, 0) && IsApproved(st, 1) && 2 in st && !st[2].Approved? && !st[2].OnHold?
    ensures var t := Step(m, Step(m, st, Reevaluate(0, NO_EVIDENCE)), Submit(a, true));
            IsApproved(t, 2) && !IsApproved(t, 0)
  {
    var reopened := Step(m, st, Reevaluate(0, NO_EVIDENCE));
    ReevaluationReopens(m, st, 0, NO_EVIDENCE);
    SubmitGrants(m, defs, reopened, a);
    GrantedIs(m, reopened, 2, 0);
    GrantedIs(m, reopened, 2, 2);
  }

  lemma RunTwoMore(m: Machine, events: seq<Event>, e: Event, f: Event)
    requires m.stages != []
    ensures Run(m, events + [e] + [f]) == Step(m, Step(m, Run(m, events), e), f)
  {
    RunSnoc(m, events, e);
    RunSnoc(m, events + [e], f);
  }

  /** A run of three stages in which handover is granted above a reopened first stage. */
  lemma GrantedAboveReopened()
    ensures var m, handover := MachineOf(ThreeStages()), Attempt(2, NO_EVIDENCE, true);
            var t := Run(m, Submits(BareAttempts(2)) + [Reevaluate(0, NO_EVIDENCE)] + [Submit(handover, true)]);
            ConcurrentMachine(m, ThreeStages()) && |m.stages| == 3 && IsApproved(t, 2) && !IsApproved(t, 0)
  {
    var m, handover := MachineOf(ThreeStages()), Attempt(2, NO_EVIDENCE, true);
    MachineOfIs(ThreeStages());
    MiddleDone(m, ThreeStages());
    BareEvidence(m, ThreeStages(), 2);
    GrantedPastFirst(m, ThreeStages(), Run(m, Submits(BareAttempts(2))), handover);
    RunTwoMore(m, Submits(BareAttempts(2)), Reevaluate(0, NO_EVIDENCE), Submit(handover, true));
  }

  function TwoStages(): seq<Stage> {
    [Stage("a", 1, Sequential, [], [], []), Stage("b", 2, Sequential, [], [], [])]
  }

  lemma SupportNamed(m: Machine, st: State, e: Event)
    requires TakesFrom(m, st, e)
    ensures exists i: nat, j: nat :: i < |m.stages| && j < |m.stages| && DependsOn(m, j, i)
  {
    var i, besides := StageOf(e), if e.RollBack? then e.target else StageOf(e);
    if Supports(m, st, i, besides) {
      SupportedIsStage(m, st, i, besides);
    } else {
      SupportedIsStage(m, st, besides, i);
    }
  }

  /** Of two stages neither depends on the other, so no run of them undermines anything. */
  lemma TwoAreIndependent(m: Machine, defs: seq<Stage>, events: seq<Event>)
    requires ConcurrentMachine(m, defs) && |m.stages| == 2
    ensures Steady(m, events)
  {
    forall i, j | 0 <= i < 2 && 0 <= j < 2
      ensures !DependsOn(m, j, i)
    {
      DependsIsWaits(m, defs, j, i);
    }
    forall k | 0 <= k < |events|
      ensures !StepTakes(m, events, k)
    {
      if StepTakes(m, events, k) {
        SupportNamed(m, Run(m, events[..k]), events[k]);
      }
    }
  }

  /** The first of two stages goes through from the start, and opens the second. */
  lemma FirstOfTwo(m: Machine, defs: seq<Stage>, a: Attempt)
    requires ConcurrentMachine(m, defs) && |m.stages| == 2 && a.stage == 0 && a.otherChecksPass
    requires FullEvidence(m, a.evidence, m.stages[0])
    ensures var one := Step(m, Start(m), Submit(a, true));
            IsApproved(one, 0) && 1 in one && !one[1].Approved? && !one[1].OnHold?
  {
    StartSmooth(m);
    SubmitGrants(m, defs, Start(m), a);
    GrantedCalm(m, Start(m), 0);
    GrantedIs(m, Start(m), 0, 0);
    GrantedIs(m, Start(m), 0, 1);
    WaitsMetUnlocks(m, defs, Start(m)[0 := Approved], 1);
    EnteredKeeps(m, Start(m)[0 := Approved], 1);
  }

  lemma SecondOfTwo(m: Machine, defs: seq<Stage>, st: State, b: Attempt)
    requires ConcurrentMachine(m, defs) && |m.stages| == 2 && b.stage == 1 && b.otherChecksPass
    requires IsApproved(st, 0) && 1 in st && !st[1].Approved? && !st[1].OnHold?
    requires FullEvidence(m, b.evidence, m.stages[1])
    ensures IsApproved(Step(m, st, Submit(b, true)), 0) && IsApproved(Step(m, st, Submit(b, true)), 1)
  {
    SubmitGrants(m, defs, st, b);
    GrantedIs(m, st, 1, 0);
    GrantedIs(m, st, 1, 1);
  }

  lemma RunOfTwo(m: Machine, e: Event, f: Event)
    requires m.stages != []
    ensures Run(m, [e, f]) == Step(m, Step(m, Start(m), e), f)
  {
    RunTwoMore(m, [], e, f);
    assert [] + [e] + [f] == [e, f];
  }

  lemma TwoStageRun(m: Machine, defs: seq<Stage>, a: Attempt, b: Attempt)
    requires ConcurrentMachine(m, defs) && |m.stages| == 2 && a.stage == 0 && b.stage == 1
    requires a.otherChecksPass && b.otherChecksPass
    requires FullEvidence(m, a.evidence, m.stages[0]) && FullEvidence(m, b.evidence, m.stages[1])
    ensures var t := Run(m, [Submit(a, true), Submit(b, true)]);
            IsApproved(t, 0) && IsApproved(t, 1)
  {
    FirstOfTwo(m, defs, a);
    SecondOfTwo(m, defs, Step(m, Start(m), Submit(a, true)), b);
    RunOfTwo(m, Submit(a, true), Submit(b, true));
  }

  /** With n stages, handover approved in a run that takes no approval from under another means that all are. */
  ghost predicate HandoverIsFinal(n: nat) {
    forall m, defs, events ::
      (ConcurrentMachine(m, defs) && m.stages != [] && |m.stages| == n && Steady(m, events)
       && IsApproved(Run(m, events), n - 1)) ==> AllApproved(m, Run(m, events))
  }

  lemma ManyAreFinal(n: nat)
    requires n != 2
    ensures HandoverIsFinal(n)
  {
    forall m, defs, events | ConcurrentMachine(m, defs) && m.stages != [] && |m.stages| == n && Steady(m, events)
                             && IsApproved(Run(m, events), n - 1)
      ensures AllApproved(m, Run(m, events))
    {
      HandoverMeansAll(m, defs, events);
    }
  }

  function BothSubmitted(): seq<Event> {
    [Submit(Attempt(0, NO_EVIDENCE, true), true), Submit(Attempt(1, NO_EVIDENCE, true), true)]
  }

  lemma TwoReopened()
    ensures var m, t := MachineOf(TwoStages()), Run(MachineOf(TwoStages()), BothSubmitted() + [Reevaluate(0, NO_EVIDENCE)]);
            && ConcurrentMachine(m, TwoStages()) && |m.stages| == 2
            && Steady(m, BothSubmitted() + [Reevaluate(0, NO_EVIDENCE)]) && IsApproved(t, 1) && !IsApproved(t, 0)
  {
    var m := MachineOf(TwoStages());
    MachineOfIs(TwoStages());
    BareEvidence(m, TwoStages(), 0);
    BareEvidence(m, TwoStages(), 1);
    TwoStageRun(m, TwoStages(), Attempt(0, NO_EVIDENCE, true), Attempt(1, NO_EVIDENCE, true));
    HandoverOutlivesReopening(m, BothSubmitted(), NO_EVIDENCE);
    TwoAreIndependent(m, TwoStages(), BothSubmitted() + [Reevaluate(0, NO_EVIDENCE)]);
  }

  /** That is so for every number of stages but two, where the last stage depends on none. */
  lemma HandoverIsFinalIff(n: nat)
    ensures HandoverIsFinal(n) <==> n != 2
  {
    if n != 2 {
      ManyAreFinal(n);
    } else {
      TwoReopened();
    }
  }
}
