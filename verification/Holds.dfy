/**
 The project around its stages: the stage its cursor is on, and what holds it. Closing the last open
 report ends a hold of the engine's, and takes the stage under the cursor out of it, no other.
 */
module Holds {
  import opened Approvals
  import opened Options
  import opened StageGraph

  datatype Standing = Active | HeldByEngine | HeldByHand | Completed | Archived

  datatype Project = Project(stages: State, cursor: nat, standing: Standing)

  datatype Request =
    | Work(e: Event)              // any request on one stage; resuming one is not a request of its own
    | Breach(i: nat, ev: Evidence)                      // a severe reading with no stage to return to
    | ReportsResolved                                   // the last open report is closed
    | ChangeStatus(to: Standing)

  /** The managed moves; a hold of the engine's may be made one of a person's. */
  predicate Allowed(from: Standing, to: Standing) {
    match from
    case Active => to.HeldByHand? || to.Archived?
    case HeldByEngine => to.Active? || to.HeldByHand? || to.Archived?
    case HeldByHand => to.Active? || to.Archived?
    case Completed => to.Active? || to.Archived?
    case Archived => to.Active? || to.HeldByHand?
  }

  /** The lowest stage entered and not approved, from position k on. */
  ghost function FirstOpen(m: Machine, st: State, k: nat, otherwise: nat): nat
    decreases |m.stages| - k
  {
    if k >= |m.stages| then otherwise
    else if k in st && !st[k].Approved? then k
    else FirstOpen(m, st, k + 1, otherwise)
  }

  /** A request on a stage; a grant moves the cursor, a rejection may hold the project, a rollback frees it. */
  ghost function Worked(m: Machine, p: Project, e: Event): Project {
    var i, st := StageOf(e), Step(m, p.stages, e);
    if e.Resume? || i !in p.stages || i >= |m.stages| then p
    else if IsApproved(st, i) && !IsApproved(p.stages, i) then
      if i + 1 == |m.stages| then Project(st, p.cursor, Completed)
      else Project(st, FirstOpen(m, st, 0, i), p.standing)
    else if e.Reject? && e.hold && (p.stages[i].PendingApproval? || p.stages[i].Validation?) then
      Project(st, p.cursor, HeldByEngine)
    else if e.RollBack? && e.target < |m.stages| then Project(st, e.target, Active)
    else p.(stages := st)
  }

  ghost function Move(m: Machine, p: Project, r: Request): Project {
    if p.standing.Archived? && !r.ChangeStatus? then p else
    match r
    case Work(e) => Worked(m, p, e)
    case Breach(i, ev) =>
      if i in p.stages && i < |m.stages|
      then p.(stages := Step(m, p.stages, Reevaluate(i, ev)), standing := HeldByEngine) else p
    case ReportsResolved =>
      if p.standing.HeldByEngine?
      then p.(stages := Step(m, p.stages, Resume(p.cursor)), standing := Active) else p
    case ChangeStatus(to) => if Allowed(p.standing, to) then p.(standing := to) else p
  }

  ghost function ProjectRun(m: Machine, requests: seq<Request>): Project
    requires m.stages != []
  {
    if requests == [] then Project(Start(m), 0, Active)
    else Move(m, ProjectRun(m, requests[..|requests| - 1]), requests[|requests| - 1])
  }

  lemma ProjectRunSnoc(m: Machine, requests: seq<Request>, r: Request)
    requires m.stages != []
    ensures ProjectRun(m, requests + [r]) == Move(m, ProjectRun(m, requests), r)
  {
    assert (requests + [r])[..|requests|] == requests;
  }

  // ---- what moves the project ---------------------------------------------------------------------------

  /** The request approves this stage of a project that is not archived. */
  ghost predicate Grants(m: Machine, p: Project, r: Request, i: nat) {
    && p.standing != Archived && r.Work? && !r.e.Resume? && StageOf(r.e) == i && i in p.stages && i < |m.stages|
    && p.stages[i] != Approved && IsApproved(Step(m, p.stages, r.e), i)
  }

  /** The request rolls an entered stage back to a stage of the list. */
  predicate Returns(m: Machine, p: Project, r: Request) {
    && p.standing != Archived && r.Work? && r.e.RollBack? && r.e.i in p.stages && r.e.i < |m.stages|
    && r.e.target < |m.stages|
  }

  /** The request makes the engine hold the project: a rejection that asks for it, or a severe reading. */
  predicate PutsOnHold(m: Machine, p: Project, r: Request) {
    && p.standing != Archived
    && ((r.Work? && r.e.Reject? && r.e.hold && r.e.i in p.stages && r.e.i < |m.stages|
         && (p.stages[r.e.i] == PendingApproval || p.stages[r.e.i] == Validation))
        || (r.Breach? && r.i in p.stages && r.i < |m.stages|))
  }

  /** What changes where a project stands. */
  lemma StandingIs(m: Machine, p: Project, r: Request)
    ensures var q := Move(m, p, r);
            && (q.standing == Completed && p.standing != Completed <==>
                  |m.stages| > 0 && Grants(m, p, r, |m.stages| - 1) && p.standing != Completed)
            && (q.standing == HeldByEngine && p.standing != HeldByEngine <==>
                  PutsOnHold(m, p, r) && p.standing != HeldByEngine)
            && (q.standing == HeldByHand && p.standing != HeldByHand <==>
                  r == ChangeStatus(HeldByHand)
                  && (p.standing == Active || p.standing == HeldByEngine || p.standing == Archived))
            && (q.standing == Archived && p.standing != Archived <==>
                  r == ChangeStatus(Archived) && p.standing != Archived)
            && (q.standing == Active && p.standing != Active <==>
                  && p.standing != Active
                  && (Returns(m, p, r) || (r == ReportsResolved && p.standing == HeldByEngine)
                      || r == ChangeStatus(Active)))
  {
    if r.Work? && r.e.RollBack? {
      assert forall i :: IsApproved(Step(m, p.stages, r.e), i) ==> IsApproved(p.stages, i);
    }
  }

  /** The cursor moves to the stage rolled back to, or past a grant to the lowest stage entered and not approved. */
  lemma CursorIs(m: Machine, p: Project, r: Request)
    ensures var q := Move(m, p, r);
            if Returns(m, p, r) then q.cursor == r.e.target
            else if exists i: nat :: i + 1 < |m.stages| && Grants(m, p, r, i) then
              (q.cursor in q.stages && q.cursor < |m.stages| && q.stages[q.cursor] != Approved
               && forall k :: 0 <= k < q.cursor && k in q.stages ==> q.stages[k] == Approved)
              || (q.cursor == StageOf(r.e)
                  && forall k :: 0 <= k < |m.stages| && k in q.stages ==> q.stages[k] == Approved)
            else q.cursor == p.cursor
  {
    if r.Work? && r.e.RollBack? {
      assert forall i :: IsApproved(Step(m, p.stages, r.e), i) ==> IsApproved(p.stages, i);
    } else if r.Work? && Grants(m, p, r, StageOf(r.e)) {
      LowestOpen(m, Step(m, p.stages, r.e), 0, StageOf(r.e));
    }
  }

  lemma {:induction false} LowestOpen(m: Machine, st: State, k: nat, otherwise: nat)
    ensures var open := FirstOpen(m, st, k, otherwise);
            || (k <= open < |m.stages| && open in st && st[open] != Approved
                && forall j :: k <= j < open && j in st ==> st[j] == Approved)
            || (open == otherwise && forall j :: k <= j < |m.stages| && j in st ==> st[j] == Approved)
    decreases |m.stages| - k
  {
    if k < |m.stages| && !(k in st && !st[k].Approved?) {
      LowestOpen(m, st, k + 1, otherwise);
    }
  }

  // ---- the stages of a project run like the stages alone -------------------------------------------------

  lemma MoveIsStep(m: Machine, p: Project, r: Request) returns (events: seq<Event>)
    ensures |events| <= 1
    ensures Move(m, p, r).stages == (if events == [] then p.stages else Step(m, p.stages, events[0]))
  {
    events := if Move(m, p, r).stages == p.stages then []
              else match r
                   case Work(e) => [e]
                   case Breach(i, ev) => [Reevaluate(i, ev)]
                   case _ => [Resume(p.cursor)];
  }

  /** So whatever holds of the stages in every run of theirs holds of the stages of every project. */
  lemma {:induction false} ProjectRunsAreRuns(m: Machine, requests: seq<Request>) returns (events: seq<Event>)
    requires m.stages != []
    ensures Run(m, events) == ProjectRun(m, requests).stages
  {
    if requests == [] {
      events := [];
    } else {
      var before := requests[..|requests| - 1];
      events := ProjectRunsAreRuns(m, before);
      var more := MoveIsStep(m, ProjectRun(m, before), requests[|requests| - 1]);
      if more != [] {
        RunSnoc(m, events, more[0]);
        events := events + [more[0]];
      }
    }
  }

  // ---- closing the reports and submitting ------------------------------------------------------------------------------

  /** Once the reports are closed the stage goes through, whether or not it has an approver. */
  ghost predicate WayForward(m: Machine, p: Project, next: nat, ev: Evidence) {
    var a, ready := Attempt(next, ev, true), Move(m, p, ReportsResolved);
    && IsApproved(Move(m, ready, Work(Submit(a, true))).stages, next)
    && IsApproved(Move(m, Move(m, ready, Work(Submit(a, false))), Work(Approve(a))).stages, next)
  }

  /** Not on hold, or under the cursor of a project the engine holds. */
  predicate Releasable(p: Project, i: nat)
    requires i in p.stages
  {
    p.stages[i].OnHold? ==> p.standing.HeldByEngine? && p.cursor == i
  }

  lemma WorkedStages(m: Machine, p: Project, e: Event)
    requires !p.standing.Archived? && !e.Resume?
    ensures Move(m, p, Work(e)).stages == Step(m, p.stages, e)
    ensures !Move(m, p, Work(e)).standing.Archived?
  {
  }

  lemma ResolvedStages(m: Machine, p: Project, i: nat)
    requires !p.standing.Archived? && i < |m.stages| && i in p.stages
    ensures var ready := Move(m, p, ReportsResolved);
            && !ready.standing.Archived? && i in ready.stages
            && (ready.stages[i].OnHold? <==> !Releasable(p, i))
            && forall j :: IsApproved(ready.stages, j) <==> IsApproved(p.stages, j)
  {
  }

  /** A stage whose waits are not met, or that is still on hold, does not get through. */
  lemma SubmitRefused(m: Machine, defs: seq<Stage>, st: State, a: Attempt, auto: bool)
    requires ConcurrentMachine(m, defs) && a.stage < |m.stages| && a.otherChecksPass && a.stage in st
    requires FullEvidence(m, a.evidence, m.stages[a.stage]) && !IsApproved(st, a.stage)
    requires st[a.stage].OnHold? || !WaitsMet(m, st, a.stage)
    ensures !IsApproved(Step(m, st, Submit(a, auto)), a.stage)
  {
    if !WaitsMet(m, st, a.stage) {
      NotAdmitted(m, defs, st, a);
    }
  }

  lemma NotAdmitted(m: Machine, defs: seq<Stage>, st: State, a: Attempt)
    requires ConcurrentMachine(m, defs) && a.stage < |m.stages| && a.otherChecksPass
    requires FullEvidence(m, a.evidence, m.stages[a.stage]) && !WaitsMet(m, st, a.stage)
    ensures !Admitted(m, ApprovedOf(m, st), a)
  {
    MachineOrdered(m, defs);
    var j :| 0 <= j < |m.stages| && WaitsFor(m, a.stage, j) && !IsApproved(st, j);
    ApprovedAt(m, st, j);
    AdmittedWhenDependenciesAre(m, defs, ApprovedOf(m, st), a);
  }

  /** Exactly which stages can go through once their evidence is there. */
  lemma WayForwardIff(m: Machine, defs: seq<Stage>, p: Project, next: nat, ev: Evidence)
    requires ConcurrentMachine(m, defs) && next < |m.stages| && next in p.stages && !IsApproved(p.stages, next)
    requires !p.standing.Archived? && FullEvidence(m, ev, m.stages[next])
    ensures WayForward(m, p, next, ev) <==> WaitsMet(m, p.stages, next) && Releasable(p, next)
  {
    var a, ready := Attempt(next, ev, true), Move(m, p, ReportsResolved);
    ResolvedStages(m, p, next);
    WorkedStages(m, ready, Submit(a, true));
    WorkedStages(m, ready, Submit(a, false));
    WorkedStages(m, Move(m, ready, Work(Submit(a, false))), Approve(a));
    if WaitsMet(m, p.stages, next) && Releasable(p, next) {
      forall j | 0 <= j < |m.stages| && WaitsFor(m, next, j)
        ensures IsApproved(ready.stages, j)
      {
        assert IsApproved(p.stages, j);
      }
      SubmitGrants(m, defs, ready.stages, a);
      GrantedIs(m, ready.stages, next, next);
      GrantedIs(m, ready.stages[next := PendingApproval], next, next);
    } else {
      if !WaitsMet(m, p.stages, next) {
        var j :| 0 <= j < |m.stages| && WaitsFor(m, next, j) && !IsApproved(p.stages, j);
        assert !IsApproved(ready.stages, j);
      }
      SubmitRefused(m, defs, ready.stages, a, true);
    }
  }

  /** Everything that goes through a stage's gates. */
  function CompleteEvidence(stage: Stage): Evidence {
    Evidence(set g | g in stage.entryGates :: g.key, map key | key in stage.qualityGates :: GateResult(true, false))
  }

  /** An unapproved stage that goes through on closing the reports and submitting it with its evidence. */
  ghost predicate GoesThrough(m: Machine, p: Project, next: nat) {
    && next < |m.stages| && !IsApproved(p.stages, next)
    && forall ev :: FullEvidence(m, ev, m.stages[next]) ==> WayForward(m, p, next, ev)
  }

  /** Whatever waits for nothing more is on hold, and out of reach of the reports. */
  ghost predicate AllHeld(m: Machine, p: Project) {
    forall i :: 0 <= i < |m.stages| && WaitsMet(m, p.stages, i) && !IsApproved(p.stages, i) ==>
      i in p.stages && !Releasable(p, i)
  }

  lemma GoesThroughIs(m: Machine, defs: seq<Stage>, p: Project, next: nat)
    requires ConcurrentMachine(m, defs) && next < |m.stages| && next in p.stages && !IsApproved(p.stages, next)
    requires !p.standing.Archived?
    ensures GoesThrough(m, p, next) <==> WaitsMet(m, p.stages, next) && Releasable(p, next)
  {
    var ev := CompleteEvidence(m.stages[next]);
    assert FullEvidence(m, ev, m.stages[next]);
    forall ev | FullEvidence(m, ev, m.stages[next])
      ensures WayForward(m, p, next, ev) <==> WaitsMet(m, p.stages, next) && Releasable(p, next)
    {
      WayForwardIff(m, defs, p, next, ev);
    }
  }

  lemma GoesThroughEntered(m: Machine, p: Project, next: nat)
    requires GoesThrough(m, p, next)
    ensures next in p.stages
  {
    var ev := CompleteEvidence(m.stages[next]);
    assert FullEvidence(m, ev, m.stages[next]) && WayForward(m, p, next, ev);
    assert next !in p.stages ==> next !in Move(m, p, ReportsResolved).stages;
  }

  /**
   In every state a project can reach, closing the reports and submitting takes some stage through, unless
   every stage that waits for nothing more is on hold and out of reach of the reports.
   */
  lemma SomeStageGoesThroughIff(m: Machine, defs: seq<Stage>, requests: seq<Request>, missing: nat)
    requires ConcurrentMachine(m, defs) && m.stages != [] && |m.stages| != 2
    requires missing < |m.stages| && !IsApproved(ProjectRun(m, requests).stages, missing)
    requires !ProjectRun(m, requests).standing.Archived?
    ensures (exists next: nat :: GoesThrough(m, ProjectRun(m, requests), next))
      <==> !AllHeld(m, ProjectRun(m, requests))
  {
    var p := ProjectRun(m, requests);
    var events := ProjectRunsAreRuns(m, requests);
    RunOpened(m, defs, events);
    if next: nat :| GoesThrough(m, p, next) {
      GoesThroughEntered(m, p, next);
      GoesThroughIs(m, defs, p, next);
    }
    if !AllHeld(m, p) {
      var next: nat :| next < |m.stages| && WaitsMet(m, p.stages, next) && !IsApproved(p.stages, next)
                  && !(next in p.stages && !Releasable(p, next));
      GoesThroughIs(m, defs, p, next);
    }
  }

  /** With no stage on hold some stage always goes through. */
  lemma NeverStuck(m: Machine, defs: seq<Stage>, requests: seq<Request>, missing: nat) returns (next: nat)
    requires ConcurrentMachine(m, defs) && m.stages != [] && |m.stages| != 2
    requires missing < |m.stages| && !IsApproved(ProjectRun(m, requests).stages, missing)
    requires !ProjectRun(m, requests).standing.Archived?
    requires forall i :: i in ProjectRun(m, requests).stages ==> !ProjectRun(m, requests).stages[i].OnHold?
    ensures GoesThrough(m, ProjectRun(m, requests), next)
  {
    var p := ProjectRun(m, requests);
    var open := NextInLine(m, defs, p.stages, missing);
    assert !AllHeld(m, p);
    SomeStageGoesThroughIff(m, defs, requests, missing);
    next :| GoesThrough(m, p, next);
  }

  // ---- what takes a stage out of a hold ----------------------------------------------------------------------

  /** Closing the reports of a project the engine holds with its cursor there, or a rollback from or to the stage. */
  ghost predicate Releases(m: Machine, p: Project, r: Request, i: nat)
    requires i < |m.stages|
  {
    && !p.standing.Archived?
    && match r
       case ReportsResolved => p.standing.HeldByEngine? && p.cursor == i
       case Work(e) =>
         && e.RollBack? && e.i in p.stages && e.i < |m.stages|
         && (if e.target == i then !Severe(m, e.ev, m.stages[i]) else e.i == i)
       case _ => false
  }

  lemma WorkReleasesIff(m: Machine, p: Project, e: Event, i: nat)
    requires i < |m.stages| && i in p.stages && p.stages[i].OnHold? && !p.standing.Archived?
    ensures i in Worked(m, p, e).stages
    ensures Worked(m, p, e).stages[i].OnHold? <==> !Releases(m, p, Work(e), i)
  {
  }

  /** Nothing else does: a hold outlasts every other request. */
  lemma ReleasedIff(m: Machine, p: Project, r: Request, i: nat)
    requires i < |m.stages| && i in p.stages && p.stages[i].OnHold?
    ensures i in Move(m, p, r).stages
    ensures Move(m, p, r).stages[i].OnHold? <==> !Releases(m, p, r, i)
  {
    if r.Work? && !p.standing.Archived? {
      WorkReleasesIff(m, p, r.e, i);
    }
  }

  /** A further severe reading, followed by closing the reports, releases the stage under the cursor. */
  lemma SecondBreachReleases(m: Machine, p: Project, ev: Evidence)
    requires !p.standing.Archived? && p.cursor < |m.stages| && p.cursor in p.stages && p.stages[p.cursor].OnHold?
    ensures Move(m, Move(m, p, Breach(p.cursor, ev)), ReportsResolved)
         == Project(p.stages[p.cursor := InProgress], p.cursor, Active)
  {
    assert p.stages[p.cursor := OnHold] == p.stages;
  }

  // ---- a hold taken over -------------------------------------------------------------------------------------

  /** The first stage is rejected into a hold, which a person takes over and then ends. */
  function HoldTakenOver(): seq<Request> {
    var a := Attempt(0, NO_EVIDENCE, true);
    [Work(Submit(a, false)), Work(Reject(0, true, NO_EVIDENCE)), ChangeStatus(HeldByHand), ChangeStatus(Active)]
  }

  lemma RunOfFour(m: Machine, requests: seq<Request>)
    requires m.stages != [] && |requests| == 4
    ensures ProjectRun(m, requests)
         == Move(m, Move(m, Move(m, Move(m, Project(Start(m), 0, Active), requests[0]), requests[1]), requests[2]),
                 requests[3])
  {
    ProjectRunSnoc(m, [], requests[0]);
    ProjectRunSnoc(m, requests[..1], requests[1]);
    ProjectRunSnoc(m, requests[..2], requests[2]);
    ProjectRunSnoc(m, requests[..3], requests[3]);
    assert [] + [requests[0]] == requests[..1] && requests[..1] + [requests[1]] == requests[..2];
    assert requests[..2] + [requests[2]] == requests[..3] && requests[..3] + [requests[3]] == requests;
  }

  lemma FirstParked(m: Machine, a: Attempt)
    requires m.stages != [] && a.stage == 0 && Step(m, Start(m), Submit(a, false)) == map[0 := PendingApproval]
    ensures Move(m, Project(Start(m), 0, Active), Work(Submit(a, false)))
         == Project(map[0 := PendingApproval], 0, Active)
  {
  }

  lemma FirstRejected(m: Machine)
    requires m.stages != []
    ensures Move(m, Project(map[0 := PendingApproval], 0, Active), Work(Reject(0, true, NO_EVIDENCE)))
         == Project(map[0 := OnHold], 0, HeldByEngine)
  {
    var st: State := map[0 := PendingApproval];
    assert st[0 := OnHold] == map[0 := OnHold];
  }

  lemma HoldTakenOverRun(m: Machine, defs: seq<Stage>)
    requires ConcurrentMachine(m, defs) && m.stages != [] && Bare(defs)
    ensures var p := ProjectRun(m, HoldTakenOver());
            p.standing == Active && 0 in p.stages && p.stages[0] == OnHold && p.stages.Keys == {0}
  {
    var a := Attempt(0, NO_EVIDENCE, true);
    var requests := HoldTakenOver();
    BareEvidence(m, defs, 0);
    StartSmooth(m);
    SubmitGrants(m, defs, Start(m), a);
    RunOfFour(m, requests);
    assert Step(m, Start(m), Submit(a, false)) == map[0 := PendingApproval];
    FirstParked(m, a);
    FirstRejected(m);
  }
}
