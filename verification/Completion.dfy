/**
 Whether a project can still be completed: which holds can be lifted, and which last as long as nothing
 is rolled back.
 */
module Completion {
  import opened Approvals
  import opened Holds
  import opened Options
  import opened StageGraph

  /** The project after some more requests. */
  ghost function After(m: Machine, p: Project, more: seq<Request>): Project {
    if more == [] then p else Move(m, After(m, p, more[..|more| - 1]), more[|more| - 1])
  }

  lemma {:induction false} AfterAppend(m: Machine, p: Project, a: seq<Request>, b: seq<Request>)
    ensures After(m, p, a + b) == After(m, After(m, p, a), b)
  {
    if b == [] {
      assert a + b == a;
    } else {
      var n := |b| - 1;
      AfterAppend(m, p, a, b[..n]);
      assert (a + b)[..|a + b| - 1] == a + b[..n];
    }
  }

  lemma {:induction false} RunIsAfter(m: Machine, requests: seq<Request>)
    requires m.stages != []
    ensures ProjectRun(m, requests) == After(m, Project(Start(m), 0, Active), requests)
  {
    if requests != [] {
      RunIsAfter(m, requests[..|requests| - 1]);
    }
  }

  lemma RunGoesOn(m: Machine, requests: seq<Request>, more: seq<Request>)
    requires m.stages != []
    ensures ProjectRun(m, requests + more) == After(m, ProjectRun(m, requests), more)
  {
    RunIsAfter(m, requests);
    RunIsAfter(m, requests + more);
    AfterAppend(m, Project(Start(m), 0, Active), requests, more);
  }

  lemma AfterOne(m: Machine, p: Project, r: Request)
    ensures After(m, p, [r]) == Move(m, p, r)
  {
    assert [r][..0] == [];
  }

  lemma AfterTwo(m: Machine, p: Project, r: Request, s: Request)
    ensures After(m, p, [r, s]) == Move(m, Move(m, p, r), s)
  {
    AfterOne(m, p, r);
    assert [r, s][..1] == [r];
  }

  predicate RollsBack(r: Request) { r.Work? && r.e.RollBack? }

  /** No rollback, and every stage is submitted the way its approver asks: auto(i) when it has none. */
  predicate Ordinary(more: seq<Request>, auto: nat -> bool) {
    forall r :: r in more ==> !RollsBack(r) && (r.Work? && r.e.Submit? ==> r.e.auto == auto(r.e.a.stage))
  }

  predicate NoBreach(more: seq<Request>) {
    forall r :: r in more ==> !r.Breach?
  }

  /** No stage is on hold. */
  predicate Calm(st: State) {
    forall i :: i in st ==> !st[i].OnHold?
  }

  ghost predicate Finished(m: Machine, p: Project) {
    AllApproved(m, p.stages) && p.standing.Completed?
  }

  // ---- one stage at a time ---------------------------------------------------------------------------------

  lemma GrantedAnyway(m: Machine, st: State, i: nat, status: Status)
    ensures Granted(m, st[i := status], i) == Granted(m, st, i)
  {
    SameUpdate(st, i, status);
  }

  lemma SameUpdate(st: State, i: nat, status: Status)
    ensures st[i := status][i := Approved] == st[i := Approved]
  {
  }

  /** Where a grant leaves the project. */
  ghost function Advanced(m: Machine, p: Project, i: nat): Project {
    var st := Granted(m, p.stages, i);
    if i + 1 == |m.stages| then Project(st, p.cursor, Completed)
    else Project(st, FirstOpen(m, st, 0, i), p.standing)
  }

  lemma GrantAdvances(m: Machine, p: Project, e: Event)
    requires StageOf(e) < |m.stages| && StageOf(e) in p.stages && !e.Resume? && !p.standing.Archived?
    requires !IsApproved(p.stages, StageOf(e)) && Step(m, p.stages, e) == Granted(m, p.stages, StageOf(e))
    ensures Move(m, p, Work(e)) == Advanced(m, p, StageOf(e))
  {
    GrantedIs(m, p.stages, StageOf(e), StageOf(e));
  }

  lemma ParkWaits(m: Machine, p: Project, a: Attempt)
    requires a.stage < |m.stages| && a.stage in p.stages && !p.standing.Archived?
    requires Step(m, p.stages, Submit(a, false)) == p.stages[a.stage := PendingApproval]
    ensures Move(m, p, Work(Submit(a, false))) == p.(stages := p.stages[a.stage := PendingApproval])
  {
  }

  /** The attempt with everything the stage asks for. */
  function Complete(m: Machine, i: nat): Attempt
    requires i < |m.stages|
  {
    Attempt(i, CompleteEvidence(m.stages[i]), true)
  }

  lemma ManualApproval(m: Machine, defs: seq<Stage>, p: Project, i: nat)
    requires ConcurrentMachine(m, defs) && i < |m.stages| && i in p.stages && !p.standing.Archived?
    requires !IsApproved(p.stages, i) && !p.stages[i].OnHold? && WaitsMet(m, p.stages, i)
    ensures var a := Complete(m, i);
            After(m, p, [Work(Submit(a, false)), Work(Approve(a))]) == Advanced(m, p, i)
  {
    var a := Complete(m, i);
    var parked := p.(stages := p.stages[i := PendingApproval]);
    SubmitGrants(m, defs, p.stages, a);
    ParkWaits(m, p, a);
    GrantAdvances(m, parked, Approve(a));
    GrantedAnyway(m, p.stages, i, PendingApproval);
    AfterTwo(m, p, Work(Submit(a, false)), Work(Approve(a)));
  }

  /** A stage that is entered, not on hold and waits for nothing more is approved with its evidence. */
  lemma ApproveStage(m: Machine, defs: seq<Stage>, p: Project, i: nat, auto: nat -> bool)
    returns (more: seq<Request>)
    requires ConcurrentMachine(m, defs) && i < |m.stages| && i in p.stages && !p.standing.Archived?
    requires !IsApproved(p.stages, i) && !p.stages[i].OnHold? && WaitsMet(m, p.stages, i)
    ensures Ordinary(more, auto) && NoBreach(more) && After(m, p, more) == Advanced(m, p, i)
  {
    var a := Complete(m, i);
    if auto(i) {
      more := [Work(Submit(a, true))];
      SubmitGrants(m, defs, p.stages, a);
      GrantAdvances(m, p, Submit(a, true));
      AfterOne(m, p, more[0]);
    } else {
      more := [Work(Submit(a, false)), Work(Approve(a))];
      ManualApproval(m, defs, p, i);
    }
  }

  /** So is one on hold under the cursor, after another severe reading. */
  lemma ClearStage(m: Machine, defs: seq<Stage>, p: Project, i: nat, auto: nat -> bool)
    returns (more: seq<Request>, q: Project)
    requires ConcurrentMachine(m, defs) && i < |m.stages| && i in p.stages && !p.standing.Archived?
    requires !IsApproved(p.stages, i) && WaitsMet(m, p.stages, i) && (p.stages[i].OnHold? ==> p.cursor == i)
    ensures Ordinary(more, auto) && After(m, p, more) == q && q.stages == Granted(m, p.stages, i)
    ensures if i + 1 == |m.stages| then q.standing.Completed?
            else !q.standing.Archived? && q.cursor == FirstOpen(m, q.stages, 0, i)
    ensures Calm(p.stages) ==> NoBreach(more)
  {
    if p.stages[i].OnHold? {
      var ev := CompleteEvidence(m.stages[i]);
      var freed := Project(p.stages[i := InProgress], i, Active);
      SecondBreachReleases(m, p, ev);
      AfterTwo(m, p, Breach(i, ev), ReportsResolved);
      StillWaitsMet(m, p.stages, i);
      var rest := ApproveStage(m, defs, freed, i, auto);
      AfterAppend(m, p, [Breach(i, ev), ReportsResolved], rest);
      GrantedAnyway(m, p.stages, i, InProgress);
      more, q := [Breach(i, ev), ReportsResolved] + rest, Advanced(m, freed, i);
    } else {
      more := ApproveStage(m, defs, p, i, auto);
      q := Advanced(m, p, i);
    }
  }

  lemma StillWaitsMet(m: Machine, st: State, i: nat)
    requires i < |m.stages| && WaitsMet(m, st, i)
    ensures WaitsMet(m, st[i := InProgress], i)
  {
    forall j | 0 <= j < |m.stages| && WaitsFor(m, i, j)
      ensures IsApproved(st[i := InProgress], j)
    {
      assert j != i;
    }
  }

  /** Re-evaluating a stage with its evidence in place opens it again. */
  lemma Reopens(m: Machine, p: Project, i: nat)
    requires i < |m.stages| && IsApproved(p.stages, i) && !p.standing.Archived?
    ensures var e := Reevaluate(i, CompleteEvidence(m.stages[i]));
            var q := Move(m, p, Work(e));
            && i in q.stages && !q.stages[i].Approved? && !q.stages[i].OnHold?
            && q == p.(stages := p.stages[i := q.stages[i]])
  {
    var ev := CompleteEvidence(m.stages[i]);
    assert !Severe(m, ev, m.stages[i]);
    ReevaluationReopens(m, p.stages, i, ev);
  }

  // ---- from the first stage to the last --------------------------------------------------------------------------

  /** Everything below this stage is approved. */
  predicate DoneBelow(st: State, i: nat) {
    forall j :: 0 <= j < i ==> j in st && st[j] == Approved
  }

  /** The cursor is on the lowest stage that is not approved, if that is entered. */
  predicate AtLowest(m: Machine, p: Project) {
    forall i :: 0 <= i < |m.stages| && i in p.stages && !p.stages[i].Approved? && DoneBelow(p.stages, i) ==> p.cursor == i
  }

  lemma {:induction false} FirstOpenIs(m: Machine, st: State, k: nat, otherwise: nat, i: nat)
    requires k <= i < |m.stages| && DoneBelow(st, i) && i in st && !st[i].Approved?
    ensures FirstOpen(m, st, k, otherwise) == i
    decreases i - k
  {
    if k < i {
      FirstOpenIs(m, st, k + 1, otherwise, i);
    }
  }

  lemma GrantAtLowest(m: Machine, q: Project, i: nat)
    requires q.cursor == FirstOpen(m, q.stages, 0, i)
    ensures AtLowest(m, q)
  {
    forall k | 0 <= k < |m.stages| && k in q.stages && !q.stages[k].Approved? && DoneBelow(q.stages, k)
      ensures q.cursor == k
    {
      FirstOpenIs(m, q.stages, 0, i, k);
    }
  }

  lemma DoneBelowMeets(m: Machine, st: State, i: nat)
    requires 0 < i < |m.stages| && DoneBelow(st, i) && Reached(m, st)
    ensures WaitsMet(m, st, i) && i in st
  {
    assert IsApproved(st, 0);
    forall j | 0 <= j < |m.stages| && WaitsFor(m, i, j)
      ensures IsApproved(st, j)
    {
      assert j < i;
    }
  }

  lemma GrantedDone(m: Machine, st: State, i: nat)
    requires i < |m.stages| && DoneBelow(st, i)
    ensures DoneBelow(Granted(m, st, i), i + 1)
  {
    forall j | 0 <= j < i + 1
      ensures j in Granted(m, st, i) && Granted(m, st, i)[j] == Approved
    {
      GrantedIs(m, st, i, j);
    }
  }

  lemma GrantedStaysCalm(m: Machine, st: State, i: nat)
    requires i < |m.stages| && Calm(st)
    ensures Calm(Granted(m, st, i))
  {
    GrantedCalm(m, st, i);
  }

  /** The last stage is approved, again if need be, which completes the project. */
  lemma FinishLast(m: Machine, defs: seq<Stage>, p: Project, auto: nat -> bool) returns (more: seq<Request>)
    requires ConcurrentMachine(m, defs) && |m.stages| >= 2 && Reached(m, p.stages) && AtLowest(m, p)
    requires DoneBelow(p.stages, |m.stages| - 1) && !p.standing.Archived?
    ensures Ordinary(more, auto) && Finished(m, After(m, p, more)) && (Calm(p.stages) ==> NoBreach(more))
  {
    var last := |m.stages| - 1;
    DoneBelowMeets(m, p.stages, last);
    if IsApproved(p.stages, last) {
      var r := Work(Reevaluate(last, CompleteEvidence(m.stages[last])));
      var open := Move(m, p, r);
      Reopens(m, p, last);
      AfterOne(m, p, r);
      assert DoneBelow(open.stages, last);
      OpenedWaitsMet(m, p.stages, open.stages, last);
      var rest := ApproveStage(m, defs, open, last, auto);
      AfterAppend(m, p, [r], rest);
      GrantedDone(m, open.stages, last);
      more := [r] + rest;
    } else {
      var q;
      more, q := ClearStage(m, defs, p, last, auto);
      GrantedDone(m, p.stages, last);
    }
  }

  lemma OpenedWaitsMet(m: Machine, st: State, open: State, i: nat)
    requires i < |m.stages| && WaitsMet(m, st, i) && i in open && open == st[i := open[i]]
    ensures WaitsMet(m, open, i)
  {
    forall j | 0 <= j < |m.stages| && WaitsFor(m, i, j)
      ensures IsApproved(open, j)
    {
      assert j != i && IsApproved(st, j);
    }
  }

  /** With the first stages approved the others can be, one after another. */
  lemma {:induction false} FinishFrom(m: Machine, defs: seq<Stage>, p: Project, i: nat, auto: nat -> bool)
    returns (more: seq<Request>)
    requires ConcurrentMachine(m, defs) && 0 < i < |m.stages| && Reached(m, p.stages) && AtLowest(m, p)
    requires DoneBelow(p.stages, i) && !p.standing.Archived?
    ensures Ordinary(more, auto) && Finished(m, After(m, p, more)) && (Calm(p.stages) ==> NoBreach(more))
    decreases |m.stages| - i
  {
    if i + 1 == |m.stages| {
      more := FinishLast(m, defs, p, auto);
    } else if IsApproved(p.stages, i) {
      more := FinishFrom(m, defs, p, i + 1, auto);
    } else {
      DoneBelowMeets(m, p.stages, i);
      var first, q := ClearStage(m, defs, p, i, auto);
      GrantedReached(m, defs, p.stages, i);
      GrantedDone(m, p.stages, i);
      GrantAtLowest(m, q, i);
      if Calm(p.stages) {
        GrantedStaysCalm(m, p.stages, i);
      }
      var rest := FinishFrom(m, defs, q, i + 1, auto);
      AfterAppend(m, p, first, rest);
      more := first + rest;
    }
  }

  // ---- exactly when a project can be completed ----------------------------------------------------------------

  /** The first stage is on hold and the cursor elsewhere. */
  predicate Stranded(p: Project) {
    0 in p.stages && p.stages[0].OnHold? && p.cursor != 0
  }

  /** From the first stage open and within reach, everything can be approved. */
  lemma FinishFromFirst(m: Machine, defs: seq<Stage>, p: Project, auto: nat -> bool) returns (more: seq<Request>)
    requires ConcurrentMachine(m, defs) && m.stages != [] && Reached(m, p.stages) && !p.standing.Archived?
    requires !IsApproved(p.stages, 0) && !Stranded(p)
    ensures Ordinary(more, auto) && Finished(m, After(m, p, more)) && (Calm(p.stages) ==> NoBreach(more))
  {
    var first, q := ClearStage(m, defs, p, 0, auto);
    GrantedReached(m, defs, p.stages, 0);
    GrantedDone(m, p.stages, 0);
    if |m.stages| == 1 {
      more := first;
    } else {
      GrantAtLowest(m, q, 0);
      if Calm(p.stages) {
        GrantedStaysCalm(m, p.stages, 0);
      }
      var rest := FinishFrom(m, defs, q, 1, auto);
      AfterAppend(m, p, first, rest);
      more := first + rest;
    }
  }

  /** An approved first stage is reopened first, which brings the cursor back to the lowest open stage. */
  lemma FinishActive(m: Machine, defs: seq<Stage>, p: Project, auto: nat -> bool) returns (more: seq<Request>)
    requires ConcurrentMachine(m, defs) && m.stages != [] && Reached(m, p.stages) && !p.standing.Archived?
    requires !Stranded(p)
    ensures Ordinary(more, auto) && Finished(m, After(m, p, more)) && (Calm(p.stages) ==> NoBreach(more))
  {
    if IsApproved(p.stages, 0) {
      var r := Work(Reevaluate(0, CompleteEvidence(m.stages[0])));
      Reopens(m, p, 0);
      AfterOne(m, p, r);
      var rest := FinishFromFirst(m, defs, Move(m, p, r), auto);
      AfterAppend(m, p, [r], rest);
      more := [r] + rest;
    } else {
      more := FinishFromFirst(m, defs, p, auto);
    }
  }

  lemma Finish(m: Machine, defs: seq<Stage>, p: Project, auto: nat -> bool) returns (more: seq<Request>)
    requires ConcurrentMachine(m, defs) && m.stages != [] && Reached(m, p.stages) && !Stranded(p)
    ensures Ordinary(more, auto) && Finished(m, After(m, p, more)) && (Calm(p.stages) ==> NoBreach(more))
  {
    if p.standing.Archived? {
      var rest := FinishActive(m, defs, p.(standing := Active), auto);
      AfterOne(m, p, ChangeStatus(Active));
      AfterAppend(m, p, [ChangeStatus(Active)], rest);
      more := [ChangeStatus(Active)] + rest;
    } else {
      more := FinishActive(m, defs, p, auto);
    }
  }

  /** While the first stage is on hold no stage but the last is granted, so the cursor stays where it is. */
  lemma CursorStays(m: Machine, defs: seq<Stage>, p: Project, e: Event)
    requires ConcurrentMachine(m, defs) && Stranded(p) && !e.RollBack?
    ensures Worked(m, p, e).cursor == p.cursor
  {
    var i := StageOf(e);
    if i < |m.stages| && IsApproved(Step(m, p.stages, e), i) && !IsApproved(p.stages, i) && i + 1 < |m.stages| {
      OnlyAdmittedIsGranted(m, p.stages, e, i);
      MachineOrdered(m, defs);
      if i > 0 {
        DependsIsWaits(m, defs, i, 0);
        AdmittedDependencies(m, p.stages, e.a, 0);
      }
    }
  }

  lemma StrandedStep(m: Machine, defs: seq<Stage>, p: Project, r: Request)
    requires ConcurrentMachine(m, defs) && m.stages != [] && Stranded(p) && !RollsBack(r)
    ensures Stranded(Move(m, p, r))
  {
    ReleasedIff(m, p, r, 0);
    if r.Work? {
      CursorStays(m, defs, p, r.e);
    }
  }

  /** A first stage on hold away from the cursor stays so until something is rolled back. */
  lemma {:induction false} StrandedStays(m: Machine, defs: seq<Stage>, p: Project, more: seq<Request>)
    requires ConcurrentMachine(m, defs) && m.stages != [] && Stranded(p)
    requires forall r :: r in more ==> !RollsBack(r)
    ensures Stranded(After(m, p, more))
  {
    if more != [] {
      var n := |more| - 1;
      StrandedStays(m, defs, p, more[..n]);
      StrandedStep(m, defs, After(m, p, more[..n]), more[n]);
    }
  }

  /**
   Whatever has happened to a project, requests other than rollbacks can still approve every stage and
   complete it, if and only if its first stage is not on hold away from the cursor.
   */
  lemma CanFinishIff(m: Machine, defs: seq<Stage>, requests: seq<Request>, auto: nat -> bool)
    requires ConcurrentMachine(m, defs) && m.stages != []
    ensures (exists more :: Ordinary(more, auto) && Finished(m, ProjectRun(m, requests + more)))
      <==> !Stranded(ProjectRun(m, requests))
  {
    var p := ProjectRun(m, requests);
    if Stranded(p) {
      forall more | Ordinary(more, auto)
        ensures !Finished(m, ProjectRun(m, requests + more))
      {
        RunGoesOn(m, requests, more);
        StrandedStays(m, defs, p, more);
        assert !IsApproved(After(m, p, more).stages, 0);
      }
    } else {
      ReachedByProject(m, defs, requests);
      var more := Finish(m, defs, p, auto);
      RunGoesOn(m, requests, more);
    }
  }

  lemma ReachedByProject(m: Machine, defs: seq<Stage>, requests: seq<Request>)
    requires ConcurrentMachine(m, defs) && m.stages != []
    ensures Reached(m, ProjectRun(m, requests).stages)
  {
    var events := ProjectRunsAreRuns(m, requests);
    RunReached(m, defs, events);
  }

  /** With no stage on hold neither a rollback nor a severe reading is needed. */
  lemma CalmFinishes(m: Machine, defs: seq<Stage>, requests: seq<Request>, auto: nat -> bool)
    returns (more: seq<Request>)
    requires ConcurrentMachine(m, defs) && m.stages != [] && Calm(ProjectRun(m, requests).stages)
    ensures Ordinary(more, auto) && NoBreach(more) && Finished(m, ProjectRun(m, requests + more))
  {
    ReachedByProject(m, defs, requests);
    more := Finish(m, defs, ProjectRun(m, requests), auto);
    RunGoesOn(m, requests, more);
  }

  // ---- two holds that outlast their reports ---------------------------------------------------------------------

  /** The first stage alone is entered and on hold, and the engine does not hold the project. */
  predicate HeldAlone(p: Project) {
    p.stages.Keys == {0} && p.stages[0] == OnHold && !p.standing.HeldByEngine?
  }

  lemma HeldAloneStep(m: Machine, p: Project, r: Request)
    requires m.stages != [] && HeldAlone(p) && !r.Breach? && !RollsBack(r)
    ensures HeldAlone(Move(m, p, r))
  {
    ReleasedIff(m, p, r, 0);
    if r.Work? && StageOf(r.e) == 0 {
      assert p.stages[0 := OnHold] == p.stages;
    }
  }

  lemma {:induction false} HeldAloneStays(m: Machine, p: Project, more: seq<Request>)
    requires m.stages != [] && HeldAlone(p) && NoBreach(more) && forall r :: r in more ==> !RollsBack(r)
    ensures HeldAlone(After(m, p, more))
  {
    if more != [] {
      var n := |more| - 1;
      HeldAloneStays(m, p, more[..n]);
      HeldAloneStep(m, After(m, p, more[..n]), more[n]);
    }
  }

  /**
   A hold that a person takes over and then ends leaves the project active and its only open stage on
   hold. Without another severe reading or a rollback it stays there, and no stage is ever approved.
   */
  lemma HeldUntilBreach(more: seq<Request>)
    requires NoBreach(more) && forall r :: r in more ==> !RollsBack(r)
    ensures var m := MachineOf(ThreeStages());
            var p, t := ProjectRun(m, HoldTakenOver()), ProjectRun(m, HoldTakenOver() + more);
            && p.standing.Active? && 0 in t.stages && t.stages[0] == OnHold
            && forall i :: i in t.stages ==> !t.stages[i].Approved?
  {
    var m := MachineOf(ThreeStages());
    MachineOfIs(ThreeStages());
    HoldTakenOverRun(m, ThreeStages());
    RunGoesOn(m, HoldTakenOver(), more);
    HeldAloneStays(m, ProjectRun(m, HoldTakenOver()), more);
  }

  /** The first stage is approved, and then reopened, submitted again and rejected into a hold. */
  function ApprovedFirst(m: Machine): seq<Request>
    requires m.stages != []
  {
    [Work(Submit(Complete(m, 0), false)), Work(Approve(Complete(m, 0)))]
  }

  function RejectedAgain(m: Machine): seq<Request>
    requires m.stages != []
  {
    var a := Complete(m, 0);
    [Work(Reevaluate(0, a.evidence)), Work(Submit(a, false))] + [Work(Reject(0, true, a.evidence)), ReportsResolved]
  }

  lemma RejectingStrands(m: Machine, defs: seq<Stage>, p: Project)
    requires ConcurrentMachine(m, defs) && m.stages != []
    requires IsApproved(p.stages, 0) && p.cursor != 0 && p.standing.Active?
    ensures var q := After(m, p, RejectedAgain(m));
            Stranded(q) && q.standing.Active?
  {
    var a := Complete(m, 0);
    var open := Move(m, p, Work(Reevaluate(0, a.evidence)));
    Reopens(m, p, 0);
    SubmitGrants(m, defs, open.stages, a);
    ParkWaits(m, open, a);
    var parked := Move(m, open, Work(Submit(a, false)));
    AfterTwo(m, p, Work(Reevaluate(0, a.evidence)), Work(Submit(a, false)));
    RejectionStrands(m, defs, parked, a.evidence);
    AfterTwo(m, parked, Work(Reject(0, true, a.evidence)), ReportsResolved);
    AfterAppend(m, p, [Work(Reevaluate(0, a.evidence)), Work(Submit(a, false))],
      [Work(Reject(0, true, a.evidence)), ReportsResolved]);
  }

  lemma RejectionStrands(m: Machine, defs: seq<Stage>, p: Project, ev: Evidence)
    requires ConcurrentMachine(m, defs) && m.stages != []
    requires 0 in p.stages && p.stages[0].PendingApproval? && p.cursor != 0 && p.standing.Active?
    ensures var q := Move(m, Move(m, p, Work(Reject(0, true, ev))), ReportsResolved);
            Stranded(q) && q.standing.Active?
  {
    var held := Move(m, p, Work(Reject(0, true, ev)));
    assert held == Project(p.stages[0 := OnHold], p.cursor, HeldByEngine);
    StrandedStep(m, defs, held, ReportsResolved);
  }

  /** Approving the first of several stages moves the cursor to the second. */
  lemma CursorMovesOn(m: Machine, defs: seq<Stage>)
    requires ConcurrentMachine(m, defs) && |m.stages| >= 2
    ensures var q := After(m, Project(Start(m), 0, Active), ApprovedFirst(m));
            IsApproved(q.stages, 0) && q.cursor == 1 && q.standing.Active?
  {
    var p := Project(Start(m), 0, Active);
    StartSmooth(m);
    ManualApproval(m, defs, p, 0);
    SecondOpen(m, defs);
    FirstOpenIs(m, Granted(m, Start(m), 0), 0, 0, 1);
  }

  lemma SecondOpen(m: Machine, defs: seq<Stage>)
    requires ConcurrentMachine(m, defs) && |m.stages| >= 2
    ensures var st := Granted(m, Start(m), 0);
            IsApproved(st, 0) && DoneBelow(st, 1) && 1 in st && !st[1].Approved?
  {
    var st := Granted(m, Start(m), 0);
    StartReached(m);
    GrantedReached(m, defs, Start(m), 0);
    GrantedIs(m, Start(m), 0, 0);
    GrantedIs(m, Start(m), 0, 1);
    DoneBelowMeets(m, st, 1);
  }

  /**
   Every project of two or more stages can get into a state with its first stage on hold and nothing but
   a rollback to release it: whatever else follows, the stage stays on hold and the project is not completed.
   */
  lemma HeldForGood(m: Machine, defs: seq<Stage>, more: seq<Request>)
    requires ConcurrentMachine(m, defs) && |m.stages| >= 2 && forall r :: r in more ==> !RollsBack(r)
    ensures var run := ApprovedFirst(m) + RejectedAgain(m);
            var t := ProjectRun(m, run + more);
            && ProjectRun(m, run).standing.Active?
            && 0 in t.stages && t.stages[0].OnHold? && !Finished(m, t)
  {
    var start := Project(Start(m), 0, Active);
    CursorMovesOn(m, defs);
    RejectingStrands(m, defs, After(m, start, ApprovedFirst(m)));
    AfterAppend(m, start, ApprovedFirst(m), RejectedAgain(m));
    RunIsAfter(m, ApprovedFirst(m) + RejectedAgain(m));
    RunGoesOn(m, ApprovedFirst(m) + RejectedAgain(m), more);
    StrandedStays(m, defs, ProjectRun(m, ApprovedFirst(m) + RejectedAgain(m)), more);
    assert !IsApproved(ProjectRun(m, ApprovedFirst(m) + RejectedAgain(m) + more).stages, 0);
  }
}
