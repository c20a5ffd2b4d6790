/**
 What the requests of the factory floor do, one by one: when each goes through, what it leaves of the
 order, the books and the checklist, and what the release checklist and its percentages say afterwards.
 */
module FloorRules {
  import opened Money
  import opened Options
  import opened WorkOrders

  // ---- when a request goes through -------------------------------------------------------------------------

  predicate At(s: State, id: nat, status: Status) {
    id < |s.orders| && s.orders[id].status == status
  }

  /** A cost is accepted by finance, or on a conflict by the budget. */
  predicate CostPosts(w: Outside) {
    w.first == Accepted || (w.first == Conflict && w.second == Accepted)
  }

  /** The order's material is worth nothing, or its cost posts. */
  predicate MaterialPosts(s: State, id: nat, w: Outside)
    requires id < |s.orders|
  {
    MaterialValue(s.orders[id].lines, w.prices) > 0 ==> CostPosts(w)
  }

  predicate GoesThrough(s: State, e: Event) {
    match e
    case Create(_, _, _, w) => w.manager && w.projectLive
    case DoRelease(id, w) => w.manager && At(s, id, Queued) && w.projectLive && w.reserved
    case Start(id, w) =>
      w.projectLive && (At(s, id, Rework) || (At(s, id, Released) && MaterialPosts(s, id, w)))
    case AskQc(id, _, labor, w) => At(s, id, InProgress) && w.projectLive && (labor ==> CostPosts(w))
    case Judge(id, _, w) => At(s, id, QcPending) && w.projectLive
    case Redo(id, w) =>
      At(s, id, QcHold) && w.projectLive && (w.warehouse ==> w.stocked >= |s.orders[id].lines|) && MaterialPosts(s, id, w)
    case Flag(id) => id < |s.orders|
    case Pack(id, w) => At(s, id, Passed) && w.projectLive
    case Stage(id, w) => At(s, id, Packed) && w.projectLive
    case Dispatch(id, w) => At(s, id, Staged) && w.projectLive
    case Mark(project, section, _) => project in s.releases && section in s.releases[project].sections
    case ReachRelease(project, _) => project !in s.releases
  }

  /** A request goes through exactly when its order stands where it has to and everything it needs is there. */
  lemma GoesThroughIff(s: State, e: Event)
    ensures Served(s, e).1 == Ok <==> GoesThrough(s, e)
  {
    match e
    case Start(id, w) => StartsIff(s, id, w);
    case Redo(id, w) => ReworksIff(s, id, w);
    case AskQc(id, made, labor, w) => AsksIff(s, id, made, labor, w);
    case Pack(id, w) => MovesIff(s, id, Packed, w);
    case Stage(id, w) => MovesIff(s, id, Staged, w);
    case Dispatch(id, w) => MovesIff(s, id, Dispatched, w);
    case DoRelease(id, w) => ReleasesIff(s, id, w);
    case Judge(id, pass, w) => JudgesIff(s, id, pass, w);
    case _ =>
  }

  lemma ReleasesIff(s: State, id: nat, w: Outside)
    ensures ReleaseOrder(s, id, w).1 == Ok <==> GoesThrough(s, DoRelease(id, w))
  {
  }

  lemma JudgesIff(s: State, id: nat, pass: bool, w: Outside)
    ensures RecordQc(s, id, pass, w).1 == Ok <==> GoesThrough(s, Judge(id, pass, w))
  {
  }

  lemma MovesIff(s: State, id: nat, to: Status, w: Outside)
    requires to == Packed || to == Staged || to == Dispatched
    ensures Move(s, id, to, w).1 == Ok <==>
      GoesThrough(s, if to == Packed then Pack(id, w) else if to == Staged then Stage(id, w) else Dispatch(id, w))
  {
  }

  lemma StartsIff(s: State, id: nat, w: Outside)
    ensures StartOrder(s, id, w).1 == Ok <==> GoesThrough(s, Start(id, w))
  {
  }

  lemma ReworksIff(s: State, id: nat, w: Outside)
    ensures ReworkOrder(s, id, w).1 == Ok <==> GoesThrough(s, Redo(id, w))
  {
  }

  lemma AsksIff(s: State, id: nat, made: Option<real>, labor: bool, w: Outside)
    ensures RequestQc(s, id, made, labor, w).1 == Ok <==> GoesThrough(s, AskQc(id, made, labor, w))
  {
  }

  // ---- what it leaves ---------------------------------------------------------------------------------------

  /** The order moves on, with the move recorded; everything else about it and every other order stays. */
  predicate Becomes(s: State, t: State, id: nat, to: Status, blocked: Block, done: real)
    requires id < |s.orders|
  {
    var wo := s.orders[id];
    t.orders == s.orders[id := WorkOrder(wo.project, wo.lines, wo.ordered, done, to, blocked,
                                         wo.history + [Entry(Some(wo.status), to)])]
  }

  predicate BooksSame(s: State, t: State) {
    t.bookings == s.bookings && t.skipped == s.skipped
  }

  /** Material with a value is booked at that value, in finance or in the budget; without one, it is passed over. */
  predicate BooksMaterial(s: State, t: State, id: nat, rework: bool, w: Outside)
    requires id < |s.orders|
  {
    var value := MaterialValue(s.orders[id].lines, w.prices);
    if value <= 0 then t.bookings == s.bookings && t.skipped == s.skipped + [id]
    else t.bookings == s.bookings + [Booking(id, rework, value, w.first == Accepted)] && t.skipped == s.skipped
  }

  ghost predicate Leaves(s: State, t: State, e: Event)
    requires GoesThrough(s, e)
  {
    match e
    case Create(project, lines, ordered, _) =>
      && BooksSame(s, t)
      && t.orders == s.orders + [WorkOrder(project, lines, ordered, 0.0, Queued, NotBlocked, [Entry(None, Queued)])]
    case DoRelease(id, _) => BooksSame(s, t) && Becomes(s, t, id, Released, NotBlocked, s.orders[id].done)
    case Start(id, w) =>
      && Becomes(s, t, id, InProgress, NotBlocked, s.orders[id].done)
      && (if s.orders[id].status == Released then BooksMaterial(s, t, id, false, w) else BooksSame(s, t))
    case AskQc(id, made, _, _) =>
      BooksSame(s, t) && Becomes(s, t, id, QcPending, s.orders[id].blocked,
                                 match made case Some(n) => n case None => s.orders[id].ordered)
    case Judge(id, pass, _) =>
      BooksSame(s, t) && (if pass then Becomes(s, t, id, Passed, NotBlocked, s.orders[id].done)
                          else Becomes(s, t, id, QcHold, Held, s.orders[id].done))
    case Redo(id, w) => BooksMaterial(s, t, id, true, w) && Becomes(s, t, id, Rework, NotBlocked, s.orders[id].done)
    case Flag(id) => BooksSame(s, t) && t.orders == s.orders[id := s.orders[id].(blocked := Shortfall)]
    case Pack(id, _) => BooksSame(s, t) && Becomes(s, t, id, Packed, NotBlocked, s.orders[id].done)
    case Stage(id, _) => BooksSame(s, t) && Becomes(s, t, id, Staged, NotBlocked, s.orders[id].done)
    case Dispatch(id, _) => BooksSame(s, t) && Becomes(s, t, id, Dispatched, s.orders[id].blocked, s.orders[id].done)
    case Mark(project, section, complete) =>
      && BooksSame(s, t) && t.orders == s.orders && t.releases.Keys == s.releases.Keys
      && t.releases[project].sections == s.releases[project].sections
      && (forall p :: p in s.releases && p != project ==> t.releases[p] == s.releases[p])
      && (forall other :: other in t.releases[project].done
                          <==> if other == section then complete else other in s.releases[project].done)
    case ReachRelease(project, sections) =>
      BooksSame(s, t) && t.orders == s.orders && t.releases == s.releases[project := Release(sections, {})]
  }

  lemma StartLeaves(s: State, id: nat, w: Outside)
    requires GoesThrough(s, Start(id, w))
    ensures Leaves(s, StartOrder(s, id, w).0, Start(id, w))
  {
  }

  lemma ReworkLeaves(s: State, id: nat, w: Outside)
    requires GoesThrough(s, Redo(id, w))
    ensures Leaves(s, ReworkOrder(s, id, w).0, Redo(id, w))
  {
    ReworksIff(s, id, w);
    ReworkOutcome(s, id, w);
  }

  lemma FloorLeaves(s: State, e: Event)
    requires GoesThrough(s, e) && OnTheFloor(e)
    ensures Leaves(s, Served(s, e).0, e)
  {
    GoesThroughIff(s, e);
  }

  /** A request that goes through leaves exactly this of the orders, the books and the checklist. */
  lemma RequestLeaves(s: State, e: Event)
    requires GoesThrough(s, e)
    ensures Leaves(s, Served(s, e).0, e)
  {
    if e.Start? {
      StartLeaves(s, e.id, e.w);
    } else if e.Redo? {
      ReworkLeaves(s, e.id, e.w);
    } else if OnTheFloor(e) {
      FloorLeaves(s, e);
    }
  }

  // ---- what the release checklist says ------------------------------------------------------------------

  /** The states of an order in which a section is through with it. */
  predicate Through(section: string, status: Status) {
    || (section == "production"
        && (status == QcPending || status == QcHold || status == Passed || status == Packed || status == Staged
            || status == Dispatched))
    || (section == "quality_control"
        && (status == Passed || status == Packed || status == Staged || status == Dispatched))
    || (section == "packing_protection" && (status == Packed || status == Staged || status == Dispatched))
    || (section == "delivery_planning" && (status == Staged || status == Dispatched))
  }

  lemma ThroughIsCleared(section: string, status: Status)
    ensures status in ClearedBy(section) <==> Through(section, status)
  {
  }

  predicate Driven(section: string) {
    || section == "production" || section == "quality_control"
    || section == "packing_protection" || section == "delivery_planning"
  }

  lemma DrivenAre(section: string)
    ensures section in DRIVEN <==> Driven(section)
  {
    if Driven(section) {
      assert DRIVEN[0] == "production" && DRIVEN[1] == "quality_control";
      assert DRIVEN[2] == "packing_protection" && DRIVEN[3] == "delivery_planning";
    }
  }

  /** Positions of a project's orders, as far as a roll-up reads them: all of them, or the first two thousand. */
  ghost predicate ReadsAt(orders: seq<WorkOrder>, project: nat, at: seq<nat>) {
    && (forall j, k :: 0 <= j < k < |at| ==> at[j] < at[k])
    && (forall k :: 0 <= k < |at| ==> at[k] < |orders| && orders[at[k]].project == project)
    && |at| <= 2000
    && (forall i :: 0 <= i < |orders| && orders[i].project == project && i !in at ==>
          |at| == 2000 && forall k :: 0 <= k < |at| ==> at[k] < i)
  }

  /** The orders a roll-up reads, in the order they were made. */
  lemma {:induction false} ReadsAre(orders: seq<WorkOrder>, project: nat) returns (at: seq<nat>)
    ensures ReadsAt(orders, project, at)
    ensures |ReadOrders(orders, project)| == |at|
    ensures forall k :: 0 <= k < |at| ==> ReadOrders(orders, project)[k] == orders[at[k]]
  {
    at := [];
    if orders != [] {
      var n := |orders| - 1;
      var before := ReadsAre(orders[..n], project);
      ReadSnoc(orders[..n], orders[n], project);
      assert orders == orders[..n] + [orders[n]];
      at := if orders[n].project == project && |before| < 2000 then before + [n] else before;
      ReadsNext(orders, project, before, at);
    }
  }

  lemma ReadsNext(orders: seq<WorkOrder>, project: nat, before: seq<nat>, at: seq<nat>)
    requires orders != [] && ReadsAt(orders[..|orders| - 1], project, before)
    requires var n := |orders| - 1;
             at == if orders[n].project == project && |before| < 2000 then before + [n] else before
    ensures ReadsAt(orders, project, at)
  {
    var n := |orders| - 1;
    assert forall i :: 0 <= i < n ==> orders[..n][i] == orders[i];
    if |at| == |before| + 1 {
      assert at[|before|] == n;
    }
    forall i | 0 <= i < |orders| && orders[i].project == project && i !in at
      ensures |at| == 2000 && forall k :: 0 <= k < |at| ==> at[k] < i
    {
      if i < n {
        assert orders[..n][i].project == project && i !in before;
      }
    }
  }

  ghost function ThroughAt(orders: seq<WorkOrder>, section: string): set<nat> {
    set i | 0 <= i < |orders| && Through(section, orders[i].status)
  }

  lemma ThroughLast(orders: seq<WorkOrder>, section: string)
    requires orders != []
    ensures var n := |orders| - 1;
            && n !in ThroughAt(orders[..n], section)
            && ThroughAt(orders, section)
               == ThroughAt(orders[..n], section) + (if Through(section, orders[n].status) then {n} else {})
  {
    assert forall i :: 0 <= i < |orders| - 1 ==> orders[..|orders| - 1][i] == orders[i];
  }

  lemma {:induction false} CountsThrough(orders: seq<WorkOrder>, section: string)
    ensures CountCleared(orders, section) == |ThroughAt(orders, section)|
  {
    if orders != [] {
      var n := |orders| - 1;
      CountsThrough(orders[..n], section);
      ThroughIsCleared(section, orders[n].status);
      ThroughLast(orders, section);
    }
  }

  /**
   After any transition that went through, with the orders read at these positions: every driven section the
   checklist lists is done exactly when all of them are through it, every other section is as it was, and each
   driven section shows the nearest whole percentage of the orders that are through it.
   */
  lemma ChecklistSays(s: State, e: Event)
    returns (at: seq<nat>)
    requires Moves(e) && Served(s, e).1 == Ok && e.id < |s.orders|
    ensures var t, project := Served(s, e).0, s.orders[e.id].project;
            && ReadsAt(t.orders, project, at) && at != []
            && (project in s.releases ==>
                  && project in t.releases
                  && ListSays(t.orders, at, s.releases[project], t.releases[project]))
            && project in t.rollups
            && forall section :: Driven(section) ==>
                 section in t.rollups[project] && ShareOf(t.orders, at, section, t.rollups[project][section])
  {
    var t, project := Served(s, e).0, s.orders[e.id].project;
    at := ReadsAre(t.orders, project);
    TransitionRollsUp(s, e);
    TransitionShares(s, e);
    var seen := ReadOrders(t.orders, project);
    forall section | Driven(section)
      ensures section in t.rollups[project] && ShareOf(t.orders, at, section, t.rollups[project][section])
    {
      DrivenAre(section);
      SharesAre(t.orders, at, seen, section);
    }
    if project in s.releases {
      ListAgrees(t.orders, at, seen, s.releases[project], t.releases[project]);
    }
  }

  /** What the checklist lists, next to what it listed before. */
  ghost predicate ListSays(orders: seq<WorkOrder>, at: seq<nat>, was: Release, now: Release)
    requires forall k :: 0 <= k < |at| ==> at[k] < |orders|
  {
    && now.sections == was.sections
    && forall section ::
         if Driven(section) && section in was.sections
         then (section in now.done <==> forall k :: 0 <= k < |at| ==> Through(section, orders[at[k]].status))
         else (section in now.done <==> section in was.done)
  }

  /** The whole percentage nearest to the share of these orders that are through a section. */
  ghost predicate ShareOf(orders: seq<WorkOrder>, at: seq<nat>, section: string, percent: int)
    requires forall k :: 0 <= k < |at| ==> at[k] < |orders|
  {
    && at != []
    && Nearest((100 * |set k | 0 <= k < |at| && Through(section, orders[at[k]].status)|) as real / |at| as real, percent)
  }

  lemma ListAgrees(orders: seq<WorkOrder>, at: seq<nat>, seen: seq<WorkOrder>, was: Release, now: Release)
    requires |seen| == |at| && forall k :: 0 <= k < |at| ==> at[k] < |orders| && seen[k] == orders[at[k]]
    requires OthersKept(was, now) && InStep(seen, now)
    ensures ListSays(orders, at, was, now)
  {
    forall section
      ensures if Driven(section) && section in was.sections
              then (section in now.done <==> forall k :: 0 <= k < |at| ==> Through(section, orders[at[k]].status))
              else (section in now.done <==> section in was.done)
    {
      DrivenAre(section);
      AllThrough(seen, section);
      assert Drives(section, was.sections) <==> Driven(section) && section in was.sections;
      assert AllCleared(seen, section) <==> forall k :: 0 <= k < |at| ==> Through(section, orders[at[k]].status);
    }
  }

  lemma AllThrough(seen: seq<WorkOrder>, section: string)
    ensures AllCleared(seen, section) <==> forall k :: 0 <= k < |seen| ==> Through(section, seen[k].status)
  {
    forall k | 0 <= k < |seen|
      ensures seen[k].status in ClearedBy(section) <==> Through(section, seen[k].status)
    {
      ThroughIsCleared(section, seen[k].status);
    }
  }

  lemma SharesAre(orders: seq<WorkOrder>, at: seq<nat>, seen: seq<WorkOrder>, section: string)
    requires |seen| == |at| && at != [] && forall k :: 0 <= k < |at| ==> at[k] < |orders| && seen[k] == orders[at[k]]
    ensures ShareOf(orders, at, section, Percent(CountCleared(seen, section), |seen|))
  {
    CountsThrough(seen, section);
    var c := CountCleared(seen, section);
    assert ThroughAt(seen, section) == set k | 0 <= k < |at| && Through(section, orders[at[k]].status);
    HalfEvenIsNearest((100 * c) as real / |seen| as real, Percent(c, |seen|));
  }

  /** The percentages of a project after a transition are those of the orders read. */
  lemma TransitionShares(s: State, e: Event)
    requires Moves(e) && Served(s, e).1 == Ok && e.id < |s.orders|
    ensures var t, project := Served(s, e).0, s.orders[e.id].project;
            var seen := ReadOrders(t.orders, project);
            && seen != [] && project in t.rollups
            && forall section :: section in DRIVEN ==>
                 section in t.rollups[project]
                 && t.rollups[project][section] == Percent(CountCleared(seen, section), |seen|)
  {
    var project := s.orders[e.id].project;
    if e.Start? {
      StartShares(s, e.id, e.w);
    } else if e.Redo? {
      ReworkShares(s, e.id, e.w);
    } else {
      var moved := FloorRollsUp(s, e);
      var u := Put(s, e.id, moved);
      ReadsItself(u.orders, e.id);
      RecomputedShares(u, project);
    }
  }

  lemma RecomputedShares(u: State, project: nat)
    requires ReadOrders(u.orders, project) != []
    ensures var t, seen := Recomputed(u, project), ReadOrders(u.orders, project);
            && t.orders == u.orders && project in t.rollups
            && forall section :: section in DRIVEN ==>
                 section in t.rollups[project]
                 && t.rollups[project][section] == Percent(CountCleared(seen, section), |seen|)
  {
  }

  lemma StartShares(s: State, id: nat, w: Outside)
    requires StartOrder(s, id, w).1 == Ok && id < |s.orders|
    ensures var t, project := StartOrder(s, id, w).0, s.orders[id].project;
            var seen := ReadOrders(t.orders, project);
            && seen != [] && project in t.rollups
            && forall section :: section in DRIVEN ==>
                 section in t.rollups[project]
                 && t.rollups[project][section] == Percent(CountCleared(seen, section), |seen|)
  {
    var wo := s.orders[id];
    var moved := Put(s, id, WithStatus(wo, InProgress).(blocked := NotBlocked));
    var u := if wo.status != Released then moved
             else Booked(moved, id, false, MaterialValue(wo.lines, w.prices), w).value;
    ReadsItself(u.orders, id);
    RecomputedShares(u, wo.project);
  }

  lemma ReworkShares(s: State, id: nat, w: Outside)
    requires ReworkOrder(s, id, w).1 == Ok && id < |s.orders|
    ensures var t, project := ReworkOrder(s, id, w).0, s.orders[id].project;
            var seen := ReadOrders(t.orders, project);
            && seen != [] && project in t.rollups
            && forall section :: section in DRIVEN ==>
                 section in t.rollups[project]
                 && t.rollups[project][section] == Percent(CountCleared(seen, section), |seen|)
  {
    var wo := s.orders[id];
    var booked := Booked(s, id, true, MaterialValue(wo.lines, w.prices), w).value;
    var u := Put(booked, id, WithStatus(wo, Rework).(blocked := NotBlocked));
    ReadsItself(u.orders, id);
    RecomputedShares(u, wo.project);
  }
}
