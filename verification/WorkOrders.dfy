/**
 Factory work orders: the status machine with its history, the material booked for each build, and
 the release checklist rolled up from all orders of a project.
 */
module WorkOrders {
  import opened Money
  import opened Options
  import opened Sums

  datatype Status =
    | Queued | Released | InProgress | QcPending | QcHold | Rework | Passed | Packed | Staged | Dispatched

  function Allowed(from: Status): set<Status> {
    match from
    case Queued => {Released}
    case Released => {InProgress}
    case InProgress => {QcPending}
    case QcPending => {Passed, QcHold}
    case QcHold => {Rework}
    case Rework => {InProgress}
    case Passed => {Packed}
    case Packed => {Staged}
    case Staged => {Dispatched}
    case Dispatched => {}
  }

  const DRIVEN: seq<string> := ["production", "quality_control", "packing_protection", "delivery_planning"]

  /** A made unit that is held still counts as produced; only a passed one as inspected. */
  function ClearedBy(section: string): set<Status> {
    if section == "production" then {QcPending, QcHold, Passed, Packed, Staged, Dispatched}
    else if section == "quality_control" then {Passed, Packed, Staged, Dispatched}
    else if section == "packing_protection" then {Packed, Staged, Dispatched}
    else if section == "delivery_planning" then {Staged, Dispatched}
    else {}
  }

  datatype Entry = Entry(from: Option<Status>, to: Status)

  datatype Block = NotBlocked | Shortfall | Held

  datatype Line = Line(product: nat, qty: real)

  datatype WorkOrder = WorkOrder(
    project: nat, lines: seq<Line>, ordered: real, done: real, status: Status, blocked: Block, history: seq<Entry>)

  datatype Booking = Booking(order: nat, rework: bool, value: int, inFinance: bool)

  /** The release stage of a project: its checklist, and the sections marked done. */
  datatype Release = Release(sections: seq<string>, done: set<string>)

  /** `skipped` logs the builds for which no material was booked; the program keeps no such list. */
  datatype State = State(
    orders: seq<WorkOrder>, releases: map<nat, Release>, rollups: map<nat, map<string, int>>,
    bookings: seq<Booking>, skipped: seq<nat>)

  // ---- material ------------------------------------------------------------------------------------------

  datatype Answer = Accepted | Conflict | Failure

  /** What a call meets outside this component. */
  datatype Outside = Outside(
    manager: bool, projectLive: bool, reserved: bool, prices: map<nat, real>, warehouse: bool, stocked: nat,
    first: Answer, second: Answer)

  /** A job cost goes to finance, or on a conflict to the budget alone; None when posting raises. */
  function Posted(w: Outside): Option<bool> {
    match w.first
    case Accepted => Some(true)
    case Conflict => if w.second.Accepted? then Some(false) else None
    case Failure => None
  }

  function CostOf(prices: map<nat, real>): Line -> real {
    (l: Line) => (if l.product in prices then prices[l.product] else 0.0) * l.qty
  }

  function MaterialValue(lines: seq<Line>, prices: map<nat, real>): int {
    Cents(Total(lines, CostOf(prices)))
  }

  /** What each line costs: its quantity at the product's price, and nothing for a product without one. */
  predicate Priced(lines: seq<Line>, prices: map<nat, real>, amounts: seq<real>) {
    && |amounts| == |lines|
    && (forall i :: 0 <= i < |lines| && lines[i].product in prices ==>
          amounts[i] == prices[lines[i].product] * lines[i].qty)
    && (forall i :: 0 <= i < |lines| && lines[i].product !in prices ==> amounts[i] == 0.0)
  }

  function Added(amounts: seq<real>): real {
    if amounts == [] then 0.0 else amounts[0] + Added(amounts[1..])
  }

  /** The value of a bill of material is what its lines cost together, to the nearest cent. */
  lemma {:induction false} MaterialIs(lines: seq<Line>, prices: map<nat, real>, amounts: seq<real>)
    requires Priced(lines, prices, amounts)
    ensures Total(lines, CostOf(prices)) == Added(amounts)
    ensures MaterialValue(lines, prices) == HalfEven(100.0 * Added(amounts))
  {
    if lines != [] {
      NothingCostsNothing(lines[0].qty);
      MaterialIs(lines[1..], prices, amounts[1..]);
    }
  }

  lemma NothingCostsNothing(qty: real)
    ensures 0.0 * qty == 0.0
  {
  }

  method ValueLines(lines: seq<Line>, prices: map<nat, real>) returns (value: int)
    ensures value == MaterialValue(lines, prices)
    ensures forall amounts :: Priced(lines, prices, amounts) ==> value == HalfEven(100.0 * Added(amounts))
  {
    var total := 0.0;
    for i := 0 to |lines|
      invariant total == Total(lines[..i], CostOf(prices))
    {
      TotalSnoc(lines[..i], lines[i], CostOf(prices));
      assert lines[..i + 1] == lines[..i] + [lines[i]];
      total := total + (if lines[i].product in prices then prices[lines[i].product] else 0.0) * lines[i].qty;
    }
    assert lines[..|lines|] == lines;
    value := Cents(total);
    forall amounts | Priced(lines, prices, amounts)
      ensures value == HalfEven(100.0 * Added(amounts))
    {
      MaterialIs(lines, prices, amounts);
    }
  }

  // ---- rolling orders up into the release checklist ---------------------------------------------------------

  /** The roll-up reads at most this many orders of a project. */
  const CAP := 2000

  function OrdersOf(orders: seq<WorkOrder>, project: nat): seq<WorkOrder> {
    if orders == [] then [] else
    var n := |orders| - 1;
    OrdersOf(orders[..n], project) + (if orders[n].project == project then [orders[n]] else [])
  }

  function Capped(orders: seq<WorkOrder>): seq<WorkOrder> {
    if |orders| > CAP then orders[..CAP] else orders
  }

  function ReadOrders(orders: seq<WorkOrder>, project: nat): seq<WorkOrder> {
    Capped(OrdersOf(orders, project))
  }

  predicate AllCleared(orders: seq<WorkOrder>, section: string) {
    forall i :: 0 <= i < |orders| ==> orders[i].status in ClearedBy(section)
  }

  function CountCleared(orders: seq<WorkOrder>, section: string): nat {
    if orders == [] then 0 else
    var n := |orders| - 1;
    CountCleared(orders[..n], section) + (if orders[n].status in ClearedBy(section) then 1 else 0)
  }

  function Percent(cleared: nat, n: nat): int
    requires n > 0
  {
    HalfEven((100 * cleared) as real / n as real)
  }

  function Percentages(orders: seq<WorkOrder>): map<string, int>
    requires orders != []
  {
    map section | section in DRIVEN :: Percent(CountCleared(orders, section), |orders|)
  }

  predicate Drives(section: string, sections: seq<string>) {
    section in DRIVEN && section in sections
  }

  /** Driven sections are decided by the orders alone, the others are left as they were. */
  function RolledUp(release: Release, orders: seq<WorkOrder>): Release {
    release.(done := (set section | section in release.done && !Drives(section, release.sections))
                     + (set section | section in DRIVEN && section in release.sections && AllCleared(orders, section)))
  }

  function Recomputed(s: State, project: nat): State {
    var orders := ReadOrders(s.orders, project);
    if orders == [] then s else
    s.(rollups := s.rollups[project := Percentages(orders)],
       releases := if project in s.releases then s.releases[project := RolledUp(s.releases[project], orders)]
                   else s.releases)
  }

  // ---- transitions --------------------------------------------------------------------------------------------

  datatype Reply = Ok | NotFound | Denied | Refused | CostFailed

  function WithStatus(wo: WorkOrder, to: Status): WorkOrder {
    wo.(status := to, history := wo.history + [Entry(Some(wo.status), to)])
  }

  function Put(s: State, id: nat, wo: WorkOrder): State
    requires id < |s.orders|
  {
    s.(orders := s.orders[id := wo])
  }

  function NewOrder(project: nat, lines: seq<Line>, ordered: real): WorkOrder {
    WorkOrder(project, lines, ordered, 0.0, Queued, NotBlocked, [Entry(None, Queued)])
  }

  function CreateOrder(s: State, project: nat, lines: seq<Line>, ordered: real, w: Outside): (State, Reply) {
    if !w.manager then (s, Denied)
    else if !w.projectLive then (s, NotFound)
    else (s.(orders := s.orders + [NewOrder(project, lines, ordered)]), Ok)
  }

  /** Packing, staging and dispatching change nothing but the order before the roll-up. */
  function Move(s: State, id: nat, to: Status, w: Outside): (State, Reply) {
    if id >= |s.orders| then (s, NotFound)
    else if to !in Allowed(s.orders[id].status) then (s, Refused)
    else if !w.projectLive then (s, NotFound)
    else
      var wo := s.orders[id];
      var moved := WithStatus(wo, to).(blocked := if to == Dispatched then wo.blocked else NotBlocked);
      (Recomputed(Put(s, id, moved), wo.project), Ok)
  }

  function ReleaseOrder(s: State, id: nat, w: Outside): (State, Reply) {
    if !w.manager then (s, Denied)
    else if id >= |s.orders| then (s, NotFound)
    else if Released !in Allowed(s.orders[id].status) then (s, Refused)
    else if !w.projectLive then (s, NotFound)
    else if !w.reserved then (s, Refused)
    else (Recomputed(Put(s, id, WithStatus(s.orders[id], Released).(blocked := NotBlocked)), s.orders[id].project), Ok)
  }

  /** Book material; nothing is booked for a worthless bill of material. None when posting raises. */
  function Booked(s: State, id: nat, rework: bool, value: int, w: Outside): Option<State> {
    if value <= 0 then Some(s.(skipped := s.skipped + [id]))
    else match Posted(w)
         case None => None
         case Some(inFinance) => Some(s.(bookings := s.bookings + [Booking(id, rework, value, inFinance)]))
  }

  /** The first start books material after the status is stored; posting that raises ends the call there. */
  function StartOrder(s: State, id: nat, w: Outside): (State, Reply) {
    if id >= |s.orders| then (s, NotFound)
    else if InProgress !in Allowed(s.orders[id].status) then (s, Refused)
    else if !w.projectLive then (s, NotFound)
    else
      var wo := s.orders[id];
      var moved := Put(s, id, WithStatus(wo, InProgress).(blocked := NotBlocked));
      if wo.status != Released then (Recomputed(moved, wo.project), Ok)
      else match Booked(moved, id, false, MaterialValue(wo.lines, w.prices), w)
           case None => (moved.(skipped := moved.skipped + [id]), CostFailed)
           case Some(t) => (Recomputed(t, wo.project), Ok)
  }

  function RequestQc(s: State, id: nat, made: Option<real>, labor: bool, w: Outside): (State, Reply) {
    if id >= |s.orders| then (s, NotFound)
    else if QcPending !in Allowed(s.orders[id].status) then (s, Refused)
    else if !w.projectLive then (s, NotFound)
    else
      var wo := s.orders[id];
      var moved := Put(s, id, WithStatus(wo, QcPending).(done := if made.Some? then made.value else wo.ordered));
      if labor && Posted(w).None? then (moved, CostFailed) else (Recomputed(moved, wo.project), Ok)
  }

  function RecordQc(s: State, id: nat, pass: bool, w: Outside): (State, Reply) {
    var to := if pass then Passed else QcHold;
    if id >= |s.orders| || !w.projectLive then (s, NotFound)
    else if to !in Allowed(s.orders[id].status) then (s, Refused)
    else
      var wo := s.orders[id];
      (Recomputed(Put(s, id, WithStatus(wo, to).(blocked := if pass then NotBlocked else Held)), wo.project), Ok)
  }

  /** Rework draws its material from stock and books it before the status moves. */
  function ReworkOrder(s: State, id: nat, w: Outside): (State, Reply) {
    if id >= |s.orders| then (s, NotFound)
    else if Rework !in Allowed(s.orders[id].status) then (s, Refused)
    else if !w.projectLive then (s, NotFound)
    else if w.warehouse && w.stocked < |s.orders[id].lines| then (s, Refused)
    else
      var wo := s.orders[id];
      match Booked(s, id, true, MaterialValue(wo.lines, w.prices), w)
      case None => (s, CostFailed)
      case Some(t) => (Recomputed(Put(t, id, WithStatus(wo, Rework).(blocked := NotBlocked)), wo.project), Ok)
  }

  function FlagShortfall(s: State, id: nat): (State, Reply) {
    if id >= |s.orders| then (s, NotFound)
    else (Put(s, id, s.orders[id].(blocked := Shortfall)), Ok)
  }

  function Marked(s: State, project: nat, section: string, complete: bool): (State, Reply) {
    if project !in s.releases then (s, NotFound)
    else if section !in s.releases[project].sections then (s, Refused)
    else
      var release := s.releases[project];
      var done := if complete then release.done + {section} else release.done - {section};
      (s.(releases := s.releases[project := release.(done := done)]), Ok)
  }

  datatype Event =
    | Create(project: nat, lines: seq<Line>, ordered: real, w: Outside)
    | DoRelease(id: nat, w: Outside)
    | Start(id: nat, w: Outside)
    | AskQc(id: nat, made: Option<real>, labor: bool, w: Outside)
    | Judge(id: nat, pass: bool, w: Outside)
    | Redo(id: nat, w: Outside)
    | Flag(id: nat)
    | Pack(id: nat, w: Outside)
    | Stage(id: nat, w: Outside)
    | Dispatch(id: nat, w: Outside)
    | Mark(project: nat, section: string, complete: bool)
    | ReachRelease(project: nat, sections: seq<string>)

  function Served(s: State, e: Event): (State, Reply) {
    match e
    case Create(project, lines, ordered, w) => CreateOrder(s, project, lines, ordered, w)
    case DoRelease(id, w) => ReleaseOrder(s, id, w)
    case Start(id, w) => StartOrder(s, id, w)
    case AskQc(id, made, labor, w) => RequestQc(s, id, made, labor, w)
    case Judge(id, pass, w) => RecordQc(s, id, pass, w)
    case Redo(id, w) => ReworkOrder(s, id, w)
    case Flag(id) => FlagShortfall(s, id)
    case Pack(id, w) => Move(s, id, Packed, w)
    case Stage(id, w) => Move(s, id, Staged, w)
    case Dispatch(id, w) => Move(s, id, Dispatched, w)
    case Mark(project, section, complete) => Marked(s, project, section, complete)
    case ReachRelease(project, sections) =>
      if project in s.releases then (s, Refused)
      else (s.(releases := s.releases[project := Release(sections, {})]), Ok)
  }

  function Run(s: State, events: seq<Event>): State {
    if events == [] then s
    else Served(Run(s, events[..|events| - 1]), events[|events| - 1]).0
  }

  // ---- every run keeps lawful histories and complete books ---------------------------------------------------

  ghost predicate LegalPath(history: seq<Entry>) {
    && history != [] && history[0] == Entry(None, Queued)
    && forall i :: 0 < i < |history| ==>
      history[i].from == Some(history[i - 1].to) && history[i].to in Allowed(history[i - 1].to)
  }

  ghost predicate Lawful(wo: WorkOrder) {
    LegalPath(wo.history) && wo.history[|wo.history| - 1].to == wo.status
  }

  /** A build that uses up material: the first start, and every rework. */
  predicate Consumes(e: Entry) {
    e == Entry(Some(Released), InProgress) || e == Entry(Some(QcHold), Rework)
  }

  function Builds(history: seq<Entry>): nat {
    if history == [] then 0 else
    var n := |history| - 1;
    Builds(history[..n]) + (if Consumes(history[n]) then 1 else 0)
  }

  function TimesBooked(bookings: seq<Booking>, id: nat): nat {
    if bookings == [] then 0 else
    var n := |bookings| - 1;
    TimesBooked(bookings[..n], id) + (if bookings[n].order == id then 1 else 0)
  }

  function TimesSkipped(skipped: seq<nat>, id: nat): nat {
    if skipped == [] then 0 else
    var n := |skipped| - 1;
    TimesSkipped(skipped[..n], id) + (if skipped[n] == id then 1 else 0)
  }

  function Accounted(s: State, id: nat): nat {
    TimesBooked(s.bookings, id) + TimesSkipped(s.skipped, id)
  }

  ghost predicate Inv(s: State) {
    && (forall id :: 0 <= id < |s.orders| ==>
      Lawful(s.orders[id]) && Accounted(s, id) == Builds(s.orders[id].history))
    && (forall k :: 0 <= k < |s.bookings| ==> s.bookings[k].order < |s.orders| && s.bookings[k].value > 0)
    && (forall k :: 0 <= k < |s.skipped| ==> s.skipped[k] < |s.orders|)
  }

  ghost predicate Opening(s: State) {
    s.orders == [] && s.bookings == [] && s.skipped == []
  }

  lemma LawfulMove(wo: WorkOrder, to: Status)
    requires Lawful(wo) && to in Allowed(wo.status)
    ensures Lawful(WithStatus(wo, to))
    ensures Builds(WithStatus(wo, to).history)
         == Builds(wo.history) + (if Consumes(Entry(Some(wo.status), to)) then 1 else 0)
  {
    var history := WithStatus(wo, to).history;
    assert history[..|history| - 1] == wo.history;
  }

  lemma {:induction false} Unbooked(bookings: seq<Booking>, id: nat)
    requires forall k :: 0 <= k < |bookings| ==> bookings[k].order < id
    ensures TimesBooked(bookings, id) == 0
  {
    if bookings != [] {
      Unbooked(bookings[..|bookings| - 1], id);
    }
  }

  lemma {:induction false} Unskipped(skipped: seq<nat>, id: nat)
    requires forall k :: 0 <= k < |skipped| ==> skipped[k] < id
    ensures TimesSkipped(skipped, id) == 0
  {
    if skipped != [] {
      Unskipped(skipped[..|skipped| - 1], id);
    }
  }

  /** Same books, or one more line for one order. */
  ghost predicate Books(s: State, t: State, id: nat, more: nat) {
    && (forall k :: 0 <= k < |t.bookings| ==> t.bookings[k].order < |s.orders| && t.bookings[k].value > 0)
    && (forall k :: 0 <= k < |t.skipped| ==> t.skipped[k] < |s.orders|)
    && (forall o :: 0 <= o < |s.orders| ==> Accounted(t, o) == Accounted(s, o) + (if o == id then more else 0))
  }

  lemma BookedBooks(s: State, id: nat, rework: bool, value: int, w: Outside)
    requires Inv(s) && id < |s.orders| && Booked(s, id, rework, value, w).Some?
    ensures Books(s, Booked(s, id, rework, value, w).value, id, 1)
    ensures Booked(s, id, rework, value, w).value.orders == s.orders
  {
    var t := Booked(s, id, rework, value, w).value;
    if |t.skipped| > |s.skipped| {
      assert t.skipped[..|t.skipped| - 1] == s.skipped;
    } else {
      assert t.bookings[..|t.bookings| - 1] == s.bookings;
    }
  }

  lemma SkippedBooks(s: State, t: State, id: nat)
    requires Inv(s) && id < |s.orders| && t.bookings == s.bookings && t.skipped == s.skipped + [id]
    ensures Books(s, t, id, 1)
  {
    assert t.skipped[..|t.skipped| - 1] == s.skipped;
  }

  /** One legal move of one order, its build accounted for, keeps the invariant. */
  lemma MoveKeeps(s: State, t: State, id: nat, to: Status)
    requires Inv(s) && id < |s.orders| && |t.orders| == |s.orders| && to in Allowed(s.orders[id].status)
    requires t.orders == s.orders[id := t.orders[id]]
    requires t.orders[id].history == WithStatus(s.orders[id], to).history && t.orders[id].status == to
    requires Books(s, t, id, if Consumes(Entry(Some(s.orders[id].status), to)) then 1 else 0)
    ensures Inv(t)
  {
    LawfulMove(s.orders[id], to);
  }

  lemma SameBooks(s: State, t: State, id: nat)
    requires Inv(s) && t.bookings == s.bookings && t.skipped == s.skipped
    ensures Books(s, t, id, 0)
  {
  }

  /** Nothing happened, or one order made one legal move that uses no material. */
  ghost predicate Plain(s: State, t: State, id: nat, to: Status) {
    t == s ||
    (&& id < |s.orders| && |t.orders| == |s.orders| && to in Allowed(s.orders[id].status)
     && t.orders == s.orders[id := t.orders[id]] && t.bookings == s.bookings && t.skipped == s.skipped
     && t.orders[id].history == WithStatus(s.orders[id], to).history && t.orders[id].status == to
     && !Consumes(Entry(Some(s.orders[id].status), to)))
  }

  lemma PlainKeeps(s: State, t: State, id: nat, to: Status)
    requires Inv(s) && Plain(s, t, id, to)
    ensures Inv(t)
  {
    if t != s {
      SameBooks(s, t, id);
      MoveKeeps(s, t, id, to);
    }
  }

  lemma ReleaseKeeps(s: State, id: nat, w: Outside)
    requires Inv(s)
    ensures Inv(ReleaseOrder(s, id, w).0)
  {
    PlainKeeps(s, ReleaseOrder(s, id, w).0, id, Released);
  }

  lemma QcKeeps(s: State, id: nat, made: Option<real>, labor: bool, w: Outside)
    requires Inv(s)
    ensures Inv(RequestQc(s, id, made, labor, w).0)
  {
    PlainKeeps(s, RequestQc(s, id, made, labor, w).0, id, QcPending);
  }

  lemma JudgementKeeps(s: State, id: nat, pass: bool, w: Outside)
    requires Inv(s)
    ensures Inv(RecordQc(s, id, pass, w).0)
  {
    PlainKeeps(s, RecordQc(s, id, pass, w).0, id, if pass then Passed else QcHold);
  }

  lemma MoveOnKeeps(s: State, id: nat, to: Status, w: Outside)
    requires Inv(s) && (to == Packed || to == Staged || to == Dispatched)
    ensures Inv(Move(s, id, to, w).0)
  {
    PlainKeeps(s, Move(s, id, to, w).0, id, to);
  }

  lemma ChecklistKeeps(s: State, e: Event)
    requires Inv(s) && (e.Mark? || e.ReachRelease?)
    ensures Inv(Served(s, e).0)
  {
    StillInv(s, Served(s, e).0);
  }

  lemma FlagKeeps(s: State, id: nat)
    requires Inv(s)
    ensures Inv(FlagShortfall(s, id).0)
  {
    if id < |s.orders| {
      SameBooks(s, FlagShortfall(s, id).0, id);
    }
  }

  lemma StillInv(s: State, t: State)
    requires Inv(s) && t.orders == s.orders && t.bookings == s.bookings && t.skipped == s.skipped
    ensures Inv(t)
  {
  }

  lemma CreateKeeps(s: State, project: nat, lines: seq<Line>, ordered: real, w: Outside)
    requires Inv(s)
    ensures Inv(CreateOrder(s, project, lines, ordered, w).0)
  {
    Unbooked(s.bookings, |s.orders|);
    Unskipped(s.skipped, |s.orders|);
    var history := [Entry(None, Queued)];
    assert history[..0] == [];
  }

  lemma BooksSame(s: State, u: State, t: State, id: nat, more: nat)
    requires Books(s, u, id, more) && t.bookings == u.bookings && t.skipped == u.skipped
    ensures Books(s, t, id, more)
  {
  }

  lemma BuildKeeps(s: State, t: State, id: nat, to: Status)
    requires Inv(s) && id < |s.orders| && to in Allowed(s.orders[id].status)
    requires t.orders == s.orders[id := WithStatus(s.orders[id], to).(blocked := NotBlocked)]
    requires Consumes(Entry(Some(s.orders[id].status), to)) && Books(s, t, id, 1)
    ensures Inv(t)
  {
    MoveKeeps(s, t, id, to);
  }

  /** A first start that was stored: its material booked, or the failure logged. */
  ghost predicate FirstStarted(s: State, t: State, id: nat, value: int, w: Outside) {
    && id < |s.orders| && s.orders[id].status == Released
    && t.orders == s.orders[id := WithStatus(s.orders[id], InProgress).(blocked := NotBlocked)]
    && (match Booked(s, id, false, value, w)
        case None => t.bookings == s.bookings && t.skipped == s.skipped + [id]
        case Some(u) => t.bookings == u.bookings && t.skipped == u.skipped)
  }

  lemma FirstStartKeeps(s: State, t: State, id: nat, value: int, w: Outside)
    requires Inv(s) && FirstStarted(s, t, id, value, w)
    ensures Inv(t)
  {
    if Booked(s, id, false, value, w).None? {
      SkippedBooks(s, t, id);
    } else {
      BookedBooks(s, id, false, value, w);
      BooksSame(s, Booked(s, id, false, value, w).value, t, id, 1);
    }
    BuildKeeps(s, t, id, InProgress);
  }

  lemma StartOutcome(s: State, id: nat, w: Outside)
    ensures var t := StartOrder(s, id, w).0;
            || Plain(s, t, id, InProgress)
            || (id < |s.orders| && FirstStarted(s, t, id, MaterialValue(s.orders[id].lines, w.prices), w))
  {
  }

  lemma StartKeeps(s: State, id: nat, w: Outside)
    requires Inv(s)
    ensures Inv(StartOrder(s, id, w).0)
  {
    var t := StartOrder(s, id, w).0;
    StartOutcome(s, id, w);
    if Plain(s, t, id, InProgress) {
      PlainKeeps(s, t, id, InProgress);
    } else {
      FirstStartKeeps(s, t, id, MaterialValue(s.orders[id].lines, w.prices), w);
    }
  }

  /** A rework that went through: its material booked, then one legal move. */
  ghost predicate Reworked(s: State, t: State, id: nat, value: int, w: Outside) {
    && id < |s.orders| && s.orders[id].status == QcHold && Booked(s, id, true, value, w).Some?
    && t.orders == s.orders[id := WithStatus(s.orders[id], Rework).(blocked := NotBlocked)]
    && t.bookings == Booked(s, id, true, value, w).value.bookings
    && t.skipped == Booked(s, id, true, value, w).value.skipped
  }

  lemma ReworkOutcome(s: State, id: nat, w: Outside)
    ensures var t := ReworkOrder(s, id, w).0;
            t == s || (id < |s.orders| && Reworked(s, t, id, MaterialValue(s.orders[id].lines, w.prices), w))
  {
    if id < |s.orders| {
      OnlyHeldIsReworked(s.orders[id].status);
    }
  }

  lemma OnlyHeldIsReworked(from: Status)
    ensures Rework in Allowed(from) <==> from == QcHold
  {
  }

  lemma ReworkedKeeps(s: State, t: State, id: nat, value: int, w: Outside)
    requires Inv(s) && Reworked(s, t, id, value, w)
    ensures Inv(t)
  {
    BookedBooks(s, id, true, value, w);
    BooksSame(s, Booked(s, id, true, value, w).value, t, id, 1);
    BuildKeeps(s, t, id, Rework);
  }

  lemma ReworkKeeps(s: State, id: nat, w: Outside)
    requires Inv(s)
    ensures Inv(ReworkOrder(s, id, w).0)
  {
    ReworkOutcome(s, id, w);
    if ReworkOrder(s, id, w).0 != s {
      ReworkedKeeps(s, ReworkOrder(s, id, w).0, id, MaterialValue(s.orders[id].lines, w.prices), w);
    }
  }

  predicate OnTheFloor(e: Event) {
    e.DoRelease? || e.AskQc? || e.Judge? || e.Pack? || e.Stage? || e.Dispatch?
  }

  lemma FloorKeeps(s: State, e: Event)
    requires Inv(s) && OnTheFloor(e)
    ensures Inv(Served(s, e).0)
  {
    match e
    case DoRelease(id, w) => ReleaseKeeps(s, id, w);
    case AskQc(id, made, labor, w) => QcKeeps(s, id, made, labor, w);
    case Judge(id, pass, w) => JudgementKeeps(s, id, pass, w);
    case _ => LeavingKeeps(s, e);
  }

  lemma LeavingKeeps(s: State, e: Event)
    requires Inv(s) && (e.Pack? || e.Stage? || e.Dispatch?)
    ensures Inv(Served(s, e).0)
  {
    MoveOnKeeps(s, e.id, if e.Pack? then Packed else if e.Stage? then Staged else Dispatched, e.w);
  }

  lemma OtherKeeps(s: State, e: Event)
    requires Inv(s) && !OnTheFloor(e)
    ensures Inv(Served(s, e).0)
  {
    match e
    case Create(project, lines, ordered, w) => CreateKeeps(s, project, lines, ordered, w);
    case Start(id, w) => StartKeeps(s, id, w);
    case Redo(id, w) => ReworkKeeps(s, id, w);
    case Flag(id) => FlagKeeps(s, id);
    case Mark(_, _, _) => ChecklistKeeps(s, e);
    case ReachRelease(_, _) => ChecklistKeeps(s, e);
  }

  lemma {:induction false} RunKeeps(s: State, events: seq<Event>)
    requires Inv(s)
    ensures Inv(Run(s, events))
  {
    if events != [] {
      RunKeeps(s, events[..|events| - 1]);
      var before, e := Run(s, events[..|events| - 1]), events[|events| - 1];
      if OnTheFloor(e) {
        FloorKeeps(before, e);
      } else {
        OtherKeeps(before, e);
      }
    }
  }

  // ---- what that means ---------------------------------------------------------------------------------------

  /** In every run an order's history is a legal path from its creation to its present status. */
  lemma HistoryIsLegal(s: State, events: seq<Event>, id: nat)
    requires Opening(s) && id < |Run(s, events).orders|
    ensures Lawful(Run(s, events).orders[id])
  {
    RunKeeps(s, events);
  }

  predicate PastInspection(status: Status) { status in {Passed, Packed, Staged, Dispatched} }

  lemma Leads(from: Status, to: Status)
    requires to in Allowed(from)
    ensures to == Passed ==> from == QcPending
    ensures to in {Packed, Staged, Dispatched} ==> PastInspection(from)
  {
  }

  /** On a legal path, nothing past inspection lacks a pass given after the last time it was built. */
  lemma {:induction false} PassFollowsBuild(history: seq<Entry>)
    requires LegalPath(history) && PastInspection(history[|history| - 1].to)
    ensures exists i :: 0 < i < |history| && history[i] == Entry(Some(QcPending), Passed)
                        && forall j :: i < j < |history| ==> history[j].to in {Packed, Staged, Dispatched}
  {
    var n := |history| - 1;
    assert n > 0;
    Leads(history[n - 1].to, history[n].to);
    if history[n].to == Passed {
      assert history[n] == Entry(Some(QcPending), Passed);
    } else {
      PassFollowsBuild(history[..n]);
      var i :| 0 < i < n && history[..n][i] == Entry(Some(QcPending), Passed)
               && forall j :: i < j < n ==> history[..n][j].to in {Packed, Staged, Dispatched};
      assert history[i] == Entry(Some(QcPending), Passed);
      assert forall j :: i < j < n ==> history[j] == history[..n][j];
    }
  }

  /** The last word of inspection came after the last build. */
  ghost predicate TestedSinceBuilt(history: seq<Entry>) {
    exists i :: 0 < i < |history| && history[i].to == Passed
      && forall j :: i < j < |history| ==> history[j].to != InProgress && history[j].to != Rework
  }

  lemma PathTested(history: seq<Entry>)
    requires LegalPath(history) && PastInspection(history[|history| - 1].to)
    ensures TestedSinceBuilt(history)
  {
    PassFollowsBuild(history);
    var i :| 0 < i < |history| && history[i] == Entry(Some(QcPending), Passed)
             && forall j :: i < j < |history| ==> history[j].to in {Packed, Staged, Dispatched};
    assert history[i].to == Passed;
  }

  /** No order is packed, staged or dispatched unless a pass followed the last time it was in progress. */
  lemma NothingLeavesUntested(s: State, events: seq<Event>, id: nat)
    requires Opening(s) && id < |Run(s, events).orders| && PastInspection(Run(s, events).orders[id].status)
    ensures TestedSinceBuilt(Run(s, events).orders[id].history)
  {
    HistoryIsLegal(s, events, id);
    PathTested(Run(s, events).orders[id].history);
  }

  function Reworks(history: seq<Entry>): nat {
    if history == [] then 0 else
    var n := |history| - 1;
    Reworks(history[..n]) + (if history[n].to == Rework then 1 else 0)
  }

  /** Started at all or not, plus one for each rework: that is how often an order is built. */
  lemma {:induction false} BuildsAre(history: seq<Entry>)
    requires LegalPath(history)
    ensures var last := history[|history| - 1].to;
            Builds(history) == (if last == Queued || last == Released then 0 else 1) + Reworks(history)
    ensures var last := history[|history| - 1].to;
            last == Queued || last == Released ==> Reworks(history) == 0
  {
    var n := |history| - 1;
    if n > 0 {
      BuildsAre(history[..n]);
    } else {
      assert history[..0] == [];
    }
  }

  /**
   A first start or a rework that goes through without booking anything: its material is worth
   nothing, or it is a first start whose cost cannot be posted.
   */
  predicate GoesUnbooked(s: State, e: Event, id: nat) {
    && (e.Start? || e.Redo?) && e.id == id && id < |s.orders| && e.w.projectLive
    && var worthless := MaterialValue(s.orders[id].lines, e.w.prices) <= 0;
       if e.Start? then s.orders[id].status == Released && (worthless || Posted(e.w).None?)
       else s.orders[id].status == QcHold && worthless && (e.w.warehouse ==> e.w.stocked >= |s.orders[id].lines|)
  }

  lemma StartSkipsWhen(s: State, e: Event)
    requires e.Start?
    ensures Served(s, e).0.skipped == s.skipped + (if GoesUnbooked(s, e, e.id) then [e.id] else [])
  {
    if e.id < |s.orders| {
      OnlyBuildable(s.orders[e.id].status);
    }
  }

  lemma OnlyBuildable(from: Status)
    ensures InProgress in Allowed(from) <==> from == Released || from == Rework
  {
  }

  lemma ReworkSkipsWhen(s: State, e: Event)
    requires e.Redo?
    ensures Served(s, e).0.skipped == s.skipped + (if GoesUnbooked(s, e, e.id) then [e.id] else [])
  {
    if e.id < |s.orders| {
      OnlyHeldIsReworked(s.orders[e.id].status);
    }
  }

  lemma OthersSkipNothing(s: State, e: Event)
    requires !e.Start? && !e.Redo?
    ensures Served(s, e).0.skipped == s.skipped
  {
  }

  /** A build is skipped exactly when it goes through unbooked. */
  lemma SkippedExactlyWhen(s: State, e: Event, id: nat)
    ensures TimesSkipped(Served(s, e).0.skipped, id)
         == TimesSkipped(s.skipped, id) + (if GoesUnbooked(s, e, id) then 1 else 0)
  {
    if e.Start? {
      StartSkipsWhen(s, e);
    } else if e.Redo? {
      ReworkSkipsWhen(s, e);
    } else {
      OthersSkipNothing(s, e);
    }
    if (e.Start? || e.Redo?) && GoesUnbooked(s, e, e.id) {
      assert (s.skipped + [e.id])[..|s.skipped|] == s.skipped;
    }
  }

  /** Some step of the run let a build of this order go through unbooked. */
  predicate EverUnbooked(s: State, events: seq<Event>, id: nat) {
    exists k :: 0 <= k < |events| && GoesUnbooked(Run(s, events[..k]), events[k], id)
  }

  lemma EverUnbookedSnoc(s: State, events: seq<Event>, id: nat)
    requires events != []
    ensures var n := |events| - 1;
            EverUnbooked(s, events, id) <==>
              EverUnbooked(s, events[..n], id) || GoesUnbooked(Run(s, events[..n]), events[n], id)
  {
    var n := |events| - 1;
    assert forall k :: 0 <= k < n ==> events[..n][..k] == events[..k] && events[..n][k] == events[k];
    if k :| 0 <= k < |events| && GoesUnbooked(Run(s, events[..k]), events[k], id) {
      if k < n {
        assert GoesUnbooked(Run(s, events[..n][..k]), events[..n][k], id);
      }
    }
    if k :| 0 <= k < n && GoesUnbooked(Run(s, events[..n][..k]), events[..n][k], id) {
      assert GoesUnbooked(Run(s, events[..k]), events[k], id);
    }
  }

  lemma {:induction false} SkippedInRun(s: State, events: seq<Event>, id: nat)
    requires Opening(s)
    ensures TimesSkipped(Run(s, events).skipped, id) > 0 <==> EverUnbooked(s, events, id)
  {
    if events != [] {
      var n := |events| - 1;
      SkippedInRun(s, events[..n], id);
      SkippedExactlyWhen(Run(s, events[..n]), events[n], id);
      EverUnbookedSnoc(s, events, id);
    }
  }

  /** How often an order has been built: its first start, if it had one, and its reworks. */
  function TimesBuilt(wo: WorkOrder): nat {
    (if wo.status == Queued || wo.status == Released then 0 else 1) + Reworks(wo.history)
  }

  /**
   Material is booked exactly once for the first start and once per rework, if and only if no build of
   the order ever went through with worthless material or a first-start cost that could not be posted.
   */
  lemma MaterialBookedPerBuildIff(s: State, events: seq<Event>, id: nat)
    requires Opening(s) && id < |Run(s, events).orders|
    ensures var t := Run(s, events);
            TimesBooked(t.bookings, id) == TimesBuilt(t.orders[id]) <==> !EverUnbooked(s, events, id)
  {
    RunKeeps(s, events);
    BuildsAre(Run(s, events).orders[id].history);
    SkippedInRun(s, events, id);
  }

  /** Every start and rework of the order meets material of positive value and a cost post that works. */
  predicate AlwaysPostable(s: State, events: seq<Event>, id: nat) {
    forall k :: 0 <= k < |events| && (events[k].Start? || events[k].Redo?) && events[k].id == id ==>
      var now := Run(s, events[..k]);
      id < |now.orders| ==> MaterialValue(now.orders[id].lines, events[k].w.prices) > 0 && Posted(events[k].w).Some?
  }

  /** With material of positive value and working posts, one booking for the first start and one per rework. */
  lemma MaterialBookedPerBuild(s: State, events: seq<Event>, id: nat)
    requires Opening(s) && id < |Run(s, events).orders| && AlwaysPostable(s, events, id)
    ensures TimesBooked(Run(s, events).bookings, id) == TimesBuilt(Run(s, events).orders[id])
  {
    forall k | 0 <= k < |events|
      ensures !GoesUnbooked(Run(s, events[..k]), events[k], id)
    {
      if (events[k].Start? || events[k].Redo?) && events[k].id == id {
        assert id < |Run(s, events[..k]).orders| ==>
          MaterialValue(Run(s, events[..k]).orders[id].lines, events[k].w.prices) > 0 && Posted(events[k].w).Some?;
      }
    }
    MaterialBookedPerBuildIff(s, events, id);
  }

  /** A first start whose cost cannot be posted stays started, with nothing booked for material that has a price. */
  lemma StartedUnbooked()
    ensures var w := Outside(true, true, true, map[0 := 5.0], false, 0, Failure, Failure);
            var s0 := State([], map[], map[], [], []);
            var s1 := Served(s0, Create(0, [Line(0, 1.0)], 1.0, w)).0;
            var s2 := Served(s1, DoRelease(0, w)).0;
            var (t, reply) := Served(s2, Start(0, w));
            && MaterialValue([Line(0, 1.0)], w.prices) == 500
            && reply == CostFailed && |t.orders| == 1 && t.orders[0].status == InProgress
            && TimesBooked(t.bookings, 0) == 0
  {
    var w := Outside(true, true, true, map[0 := 5.0], false, 0, Failure, Failure);
    var s1 := Served(State([], map[], map[], [], []), Create(0, [Line(0, 1.0)], 1.0, w)).0;
    var s2 := Served(s1, DoRelease(0, w)).0;
    assert |s1.orders| == 1 && s1.orders[0] == NewOrder(0, [Line(0, 1.0)], 1.0);
    FloorMove(s1, DoRelease(0, w));
    assert |s2.orders| == 1 && s2.orders[0].status == Released && s2.orders[0].lines == [Line(0, 1.0)];
    WorthFive(w.prices);
    StartFails(s2, w);
  }

  lemma WorthFive(prices: map<nat, real>)
    requires prices == map[0 := 5.0]
    ensures MaterialValue([Line(0, 1.0)], prices) == 500
  {
    assert [Line(0, 1.0)][1..] == [];
    assert Total([Line(0, 1.0)], CostOf(prices)) == 5.0;
    RoundingExact(500);
  }

  lemma StartFails(s: State, w: Outside)
    requires |s.orders| == 1 && s.orders[0].status == Released && s.bookings == [] && w.projectLive
    requires MaterialValue(s.orders[0].lines, w.prices) > 0 && Posted(w).None?
    ensures var (t, reply) := Served(s, Start(0, w));
            && reply == CostFailed && |t.orders| == 1 && t.orders[0].status == InProgress
            && TimesBooked(t.bookings, 0) == 0
  {
  }

  /** The status each transition is there to reach. */
  function Target(e: Event): Status
    requires Moves(e)
  {
    match e
    case DoRelease(_, _) => Released
    case Start(_, _) => InProgress
    case AskQc(_, _, _, _) => QcPending
    case Judge(_, true, _) => Passed
    case Judge(_, false, _) => QcHold
    case Redo(_, _) => Rework
    case Pack(_, _) => Packed
    case Stage(_, _) => Staged
    case Dispatch(_, _) => Dispatched
  }

  /** One order made the move, recorded once; its lines and every other order are as before. */
  ghost predicate MovedTo(s: State, t: State, id: nat, to: Status) {
    && id < |s.orders| && to in Allowed(s.orders[id].status) && |t.orders| == |s.orders|
    && t.orders == s.orders[id := t.orders[id]] && t.orders[id].status == to
    && t.orders[id].history == s.orders[id].history + [Entry(Some(s.orders[id].status), to)]
    && t.orders[id].lines == s.orders[id].lines && t.orders[id].project == s.orders[id].project
  }

  lemma FloorMove(s: State, e: Event)
    requires OnTheFloor(e) && !e.AskQc?
    ensures if Served(s, e).1 == Ok then MovedTo(s, Served(s, e).0, e.id, Target(e)) else Served(s, e).0 == s
  {
  }

  lemma QcMove(s: State, e: Event)
    requires e.AskQc?
    ensures if Served(s, e).1 == Ok || Served(s, e).1 == CostFailed
            then MovedTo(s, Served(s, e).0, e.id, QcPending) else Served(s, e).0 == s
  {
  }

  lemma StartMove(s: State, e: Event)
    requires e.Start?
    ensures if Served(s, e).1 == Ok || Served(s, e).1 == CostFailed
            then MovedTo(s, Served(s, e).0, e.id, InProgress) else Served(s, e).0 == s
  {
  }

  lemma ReworkMove(s: State, e: Event)
    requires e.Redo?
    ensures if Served(s, e).1 == Ok then MovedTo(s, Served(s, e).0, e.id, Rework) else Served(s, e).0 == s
  {
    ReworkOutcome(s, e.id, e.w);
  }

  /**
   Each transition makes its own move or none at all. A cost that cannot be posted leaves the start and
   the request for inspection in place, and nothing of a rework.
   */
  lemma TransitionMoves(s: State, e: Event)
    requires Moves(e)
    ensures var (t, reply) := Served(s, e);
            if reply == Ok || (reply == CostFailed && !e.Redo?) then MovedTo(s, t, e.id, Target(e)) else t == s
  {
    if e.Start? {
      StartMove(s, e);
    } else if e.Redo? {
      ReworkMove(s, e);
    } else if e.AskQc? {
      QcMove(s, e);
    } else {
      FloorMove(s, e);
      NoCostOnTheFloor(s, e);
    }
  }

  lemma NoCostOnTheFloor(s: State, e: Event)
    requires OnTheFloor(e) && !e.AskQc?
    ensures Served(s, e).1 != CostFailed
  {
  }

  // ---- the roll-up ----------------------------------------------------------------------------------------------

  /** Transitions of a work order, which end by rolling its project up. */
  predicate Moves(e: Event) {
    OnTheFloor(e) || e.Start? || e.Redo?
  }

  /** The checklist says exactly what the orders read say, in every section production drives. */
  ghost predicate InStep(orders: seq<WorkOrder>, release: Release) {
    forall section :: Drives(section, release.sections) ==>
      (section in release.done <==> AllCleared(orders, section))
  }

  /** Sections production does not drive are as they were. */
  ghost predicate OthersKept(was: Release, now: Release) {
    && now.sections == was.sections
    && forall section :: !Drives(section, was.sections) ==> (section in now.done <==> section in was.done)
  }

  lemma RolledUpInStep(release: Release, orders: seq<WorkOrder>)
    ensures InStep(orders, RolledUp(release, orders)) && OthersKept(release, RolledUp(release, orders))
  {
  }

  /** What a roll-up does to the checklists, this project's and every other's. */
  ghost predicate RollsUp(s: State, t: State, project: nat) {
    && t.releases.Keys == s.releases.Keys
    && (forall p :: p in s.releases && p != project ==> t.releases[p] == s.releases[p])
    && (project in s.releases ==>
      && OthersKept(s.releases[project], t.releases[project])
      && InStep(ReadOrders(t.orders, project), t.releases[project]))
  }

  lemma RecomputedRollsUp(s: State, project: nat)
    requires ReadOrders(s.orders, project) != []
    ensures RollsUp(s, Recomputed(s, project), project) && Recomputed(s, project).orders == s.orders
  {
    if project in s.releases {
      RolledUpInStep(s.releases[project], ReadOrders(s.orders, project));
    }
  }

  lemma RollsUpFrom(s: State, u: State, t: State, project: nat)
    requires u.releases == s.releases && t == Recomputed(u, project) && ReadOrders(u.orders, project) != []
    ensures RollsUp(s, t, project)
  {
    RecomputedRollsUp(u, project);
  }

  /** The reading of an order's own project is never empty. */
  lemma {:induction false} ReadsItself(orders: seq<WorkOrder>, id: nat)
    requires id < |orders|
    ensures OrdersOf(orders, orders[id].project) != [] && ReadOrders(orders, orders[id].project) != []
  {
    if id + 1 < |orders| {
      ReadsItself(orders[..|orders| - 1], id);
    }
  }

  lemma StartRollsUp(s: State, id: nat, w: Outside)
    requires StartOrder(s, id, w).1 == Ok && id < |s.orders|
    ensures RollsUp(s, StartOrder(s, id, w).0, s.orders[id].project)
  {
    var wo := s.orders[id];
    var moved := Put(s, id, WithStatus(wo, InProgress).(blocked := NotBlocked));
    var u := if wo.status != Released then moved
             else Booked(moved, id, false, MaterialValue(wo.lines, w.prices), w).value;
    ReadsItself(u.orders, id);
    RollsUpFrom(s, u, StartOrder(s, id, w).0, wo.project);
  }

  lemma ReworkRollsUp(s: State, id: nat, w: Outside)
    requires ReworkOrder(s, id, w).1 == Ok && id < |s.orders|
    ensures RollsUp(s, ReworkOrder(s, id, w).0, s.orders[id].project)
  {
    var wo := s.orders[id];
    var booked := Booked(s, id, true, MaterialValue(wo.lines, w.prices), w).value;
    var u := Put(booked, id, WithStatus(wo, Rework).(blocked := NotBlocked));
    ReadsItself(u.orders, id);
    RollsUpFrom(s, u, ReworkOrder(s, id, w).0, wo.project);
  }

  lemma FloorRollsUp(s: State, e: Event) returns (moved: WorkOrder)
    requires OnTheFloor(e) && Served(s, e).1 == Ok
    ensures e.id < |s.orders| && moved.project == s.orders[e.id].project
    ensures Served(s, e).0 == Recomputed(Put(s, e.id, moved), s.orders[e.id].project)
  {
    var wo := s.orders[e.id];
    if e.DoRelease? {
      moved := WithStatus(wo, Released).(blocked := NotBlocked);
    } else if e.AskQc? {
      moved := WithStatus(wo, QcPending).(done := if e.made.Some? then e.made.value else wo.ordered);
    } else if e.Judge? {
      moved := WithStatus(wo, if e.pass then Passed else QcHold).(blocked := if e.pass then NotBlocked else Held);
    } else if e.Pack? {
      moved := WithStatus(wo, Packed).(blocked := NotBlocked);
    } else if e.Stage? {
      moved := WithStatus(wo, Staged).(blocked := NotBlocked);
    } else {
      moved := WithStatus(wo, Dispatched);
    }
  }

  /** After any transition that went through, the release checklist of the order's project is in step. */
  lemma TransitionRollsUp(s: State, e: Event)
    requires Moves(e) && Served(s, e).1 == Ok
    ensures e.id < |s.orders| && RollsUp(s, Served(s, e).0, s.orders[e.id].project)
  {
    if e.Start? {
      StartRollsUp(s, e.id, e.w);
    } else if e.Redo? {
      ReworkRollsUp(s, e.id, e.w);
    } else {
      var moved := FloorRollsUp(s, e);
      ReadsItself(Put(s, e.id, moved).orders, e.id);
      RollsUpFrom(s, Put(s, e.id, moved), Served(s, e).0, s.orders[e.id].project);
    }
  }

  /** Every order of the project, not only those read. */
  predicate ProjectCleared(orders: seq<WorkOrder>, project: nat, section: string) {
    forall i :: 0 <= i < |orders| && orders[i].project == project ==> orders[i].status in ClearedBy(section)
  }

  lemma AllClearedAppend(a: seq<WorkOrder>, b: seq<WorkOrder>, section: string)
    ensures AllCleared(a + b, section) <==> AllCleared(a, section) && AllCleared(b, section)
  {
    if AllCleared(a + b, section) {
      assert forall i :: 0 <= i < |a| ==> a[i] == (a + b)[i];
      assert forall i :: 0 <= i < |b| ==> b[i] == (a + b)[|a| + i];
    }
  }

  lemma ProjectClearedLast(orders: seq<WorkOrder>, project: nat, section: string)
    requires orders != []
    ensures var n := |orders| - 1;
            ProjectCleared(orders, project, section) <==>
              && ProjectCleared(orders[..n], project, section)
              && (orders[n].project == project ==> orders[n].status in ClearedBy(section))
  {
    var n := |orders| - 1;
    assert forall i :: 0 <= i < n ==> orders[..n][i] == orders[i];
    if ProjectCleared(orders, project, section) {
      assert forall i :: 0 <= i < n && orders[i].project == project ==> orders[i].status in ClearedBy(section);
    }
  }

  lemma {:induction false} OrdersOfCleared(orders: seq<WorkOrder>, project: nat, section: string)
    ensures AllCleared(OrdersOf(orders, project), section) <==> ProjectCleared(orders, project, section)
  {
    if orders != [] {
      var n := |orders| - 1;
      var tail := if orders[n].project == project then [orders[n]] else [];
      OrdersOfCleared(orders[..n], project, section);
      AllClearedAppend(OrdersOf(orders[..n], project), tail, section);
      ProjectClearedLast(orders, project, section);
      assert OrdersOf(orders, project) == OrdersOf(orders[..n], project) + tail;
      assert AllCleared(tail, section) <==> (orders[n].project == project ==> orders[n].status in ClearedBy(section)) by {
        if orders[n].project == project {
          assert tail[0] == orders[n];
        }
      }
    }
  }

  /** Within the reading cap a driven section is done exactly when every order of the project has cleared it. */
  lemma DoneMeansAllCleared(s: State, e: Event, section: string)
    requires Moves(e) && Served(s, e).1 == Ok && e.id < |s.orders| && s.orders[e.id].project in s.releases
    requires |OrdersOf(Served(s, e).0.orders, s.orders[e.id].project)| <= CAP
    requires Drives(section, s.releases[s.orders[e.id].project].sections)
    ensures var t, project := Served(s, e).0, s.orders[e.id].project;
            && project in t.releases
            && (section in t.releases[project].done <==> ProjectCleared(t.orders, project, section))
  {
    TransitionRollsUp(s, e);
    OrdersOfCleared(Served(s, e).0.orders, s.orders[e.id].project, section);
  }

  lemma ClearingNests(k: nat)
    requires k + 1 < |DRIVEN|
    ensures ClearedBy(DRIVEN[k + 1]) <= ClearedBy(DRIVEN[k])
  {
  }

  /**
   After any transition that went through, on a checklist listing all four sections a later one is done
   only if the one before it is: delivery, packing, quality, production.
   */
  lemma DoneSectionsNest(s: State, e: Event, k: nat)
    requires Moves(e) && Served(s, e).1 == Ok && e.id < |s.orders| && s.orders[e.id].project in s.releases
    requires forall i :: 0 <= i < |DRIVEN| ==> DRIVEN[i] in s.releases[s.orders[e.id].project].sections
    requires k + 1 < |DRIVEN|
    ensures var t, project := Served(s, e).0, s.orders[e.id].project;
            && project in t.releases
            && (DRIVEN[k + 1] in t.releases[project].done ==> DRIVEN[k] in t.releases[project].done)
  {
    var t, project := Served(s, e).0, s.orders[e.id].project;
    TransitionRollsUp(s, e);
    ClearingNests(k);
    assert Drives(DRIVEN[k], t.releases[project].sections) && Drives(DRIVEN[k + 1], t.releases[project].sections);
  }

  /** The roll-up answers for every order of the project. */
  ghost predicate AnswersForAll(orders: seq<WorkOrder>, section: string) {
    AllCleared(Capped(orders), section) <==> AllCleared(orders, section)
  }

  /** That is so for every state the orders may be in, exactly when the project is within the reading cap. */
  lemma AnswersForAllUpToCap(n: nat, section: string)
    requires section in DRIVEN
    ensures (forall orders :: |orders| == n ==> AnswersForAll(orders, section)) <==> n <= CAP
  {
    if n > CAP {
      var done := NewOrder(0, [], 1.0).(status := Dispatched);
      var late := NewOrder(0, [], 1.0);
      var orders := seq(n, i => if i < CAP then done else late);
      assert Dispatched in ClearedBy(section) && Queued !in ClearedBy(section);
      assert AllCleared(Capped(orders), section);
      assert orders[CAP].status == Queued;
      assert |orders| == n && !AnswersForAll(orders, section);
    }
  }

  lemma {:induction false} CountBounds(orders: seq<WorkOrder>, section: string)
    ensures CountCleared(orders, section) <= |orders|
    ensures CountCleared(orders, section) == |orders| <==> AllCleared(orders, section)
  {
    if orders != [] {
      CountBounds(orders[..|orders| - 1], section);
    }
  }

  lemma Quotient(a: real, n: real, bound: real)
    requires n > 0.0
    ensures a / n >= bound <==> a >= bound * n
    ensures a / n > bound <==> a > bound * n
  {
    var x := a / n;
    assert x * n == a;
    if x >= bound {
      assert (x - bound) * n >= 0.0;
    } else {
      assert (bound - x) * n > 0.0;
    }
    if x > bound {
      assert (x - bound) * n > 0.0;
    }
  }

  /** A displayed 100 means no more than that at most one order in two hundred is behind. */
  lemma DisplayedHundred(orders: seq<WorkOrder>, section: string)
    requires orders != []
    ensures Percent(CountCleared(orders, section), |orders|) == 100
        <==> 200 * (|orders| - CountCleared(orders, section)) <= |orders|
  {
    var c, n := CountCleared(orders, section), |orders|;
    CountBounds(orders, section);
    var x := (100 * c) as real / n as real;
    Quotient((100 * c) as real, n as real, 99.5);
    Quotient((100 * c) as real, n as real, 100.0);
    HalfEvenIsNearest(x, 100);
    HalfEvenIsNearest(x, HalfEven(x));
  }

  // ---- the floor, updated in place -----------------------------------------------------------------------------

  lemma CappedSnoc(orders: seq<WorkOrder>, wo: WorkOrder)
    ensures Capped(orders + [wo]) == if |orders| >= CAP then Capped(orders) else Capped(orders) + [wo]
  {
    if |orders| >= CAP {
      assert (orders + [wo])[..CAP] == orders[..CAP];
      assert |orders| == CAP ==> orders[..CAP] == orders;
    }
  }

  lemma ReadSnoc(orders: seq<WorkOrder>, wo: WorkOrder, project: nat)
    ensures var seen := ReadOrders(orders, project);
            ReadOrders(orders + [wo], project) == if wo.project == project && |seen| < CAP then seen + [wo] else seen
  {
    assert (orders + [wo])[..|orders|] == orders;
    if wo.project == project {
      CappedSnoc(OrdersOf(orders, project), wo);
    } else {
      assert OrdersOf(orders + [wo], project) == OrdersOf(orders, project);
    }
  }

  method CountIn(orders: seq<WorkOrder>, section: string) returns (c: nat)
    ensures c == CountCleared(orders, section)
  {
    c := 0;
    for i := 0 to |orders|
      invariant c == CountCleared(orders[..i], section)
    {
      assert orders[..i + 1][..i] == orders[..i];
      if orders[i].status in ClearedBy(section) {
        c := c + 1;
      }
    }
    assert orders[..|orders|] == orders;
  }

  method EveryCleared(orders: seq<WorkOrder>, section: string) returns (all: bool)
    ensures all <==> AllCleared(orders, section)
  {
    all := true;
    for i := 0 to |orders|
      invariant all <==> forall k :: 0 <= k < i ==> orders[k].status in ClearedBy(section)
    {
      all := all && orders[i].status in ClearedBy(section);
    }
  }

  method SectionPercentages(wos: seq<WorkOrder>) returns (sections: map<string, int>)
    requires wos != []
    ensures sections == Percentages(wos)
  {
    sections := map[];
    for i := 0 to |DRIVEN|
      invariant forall section :: section in sections <==> section in DRIVEN[..i]
      invariant forall section :: section in sections ==>
        sections[section] == Percent(CountCleared(wos, section), |wos|)
    {
      var c := CountIn(wos, DRIVEN[i]);
      assert DRIVEN[..i + 1] == DRIVEN[..i] + [DRIVEN[i]];
      sections := sections[DRIVEN[i] := Percent(c, |wos|)];
    }
    assert DRIVEN[..|DRIVEN|] == DRIVEN;
  }

  class Floor {
    var orders: seq<WorkOrder>
    var releases: map<nat, Release>
    var rollups: map<nat, map<string, int>>
    var bookings: seq<Booking>
    var skipped: seq<nat>

    constructor ()
      ensures Now() == State([], map[], map[], [], [])
    {
      orders, releases, rollups, bookings, skipped := [], map[], map[], [], [];
    }

    function Now(): State
      reads this
    {
      State(orders, releases, rollups, bookings, skipped)
    }

    method LiveOrders(project: nat) returns (wos: seq<WorkOrder>)
      ensures wos == ReadOrders(orders, project)
    {
      wos := [];
      for i := 0 to |orders|
        invariant wos == ReadOrders(orders[..i], project)
      {
        ReadSnoc(orders[..i], orders[i], project);
        assert orders[..i + 1] == orders[..i] + [orders[i]];
        if orders[i].project == project && |wos| < CAP {
          wos := wos + [orders[i]];
        }
      }
      assert orders[..|orders|] == orders;
    }

    method SyncSections(release: Release, wos: seq<WorkOrder>) returns (done: set<string>)
      ensures done == RolledUp(release, wos).done
    {
      done := release.done;
      for i := 0 to |DRIVEN|
        invariant forall section :: section in done <==>
          if section in DRIVEN[..i] && section in release.sections then AllCleared(wos, section)
          else section in release.done
      {
        var section := DRIVEN[i];
        if section in release.sections {
          var all := EveryCleared(wos, section);
          done := if all then done + {section} else done - {section};
        }
        assert DRIVEN[..i + 1] == DRIVEN[..i] + [section];
      }
      assert DRIVEN[..|DRIVEN|] == DRIVEN;
    }

    method RecomputePipeline(project: nat)
      modifies `rollups, `releases
      ensures Now() == Recomputed(old(Now()), project)
    {
      var wos := LiveOrders(project);
      if wos == [] {
        return;
      }
      var sections := SectionPercentages(wos);
      rollups := rollups[project := sections];
      if project !in releases {
        return;
      }
      var done := SyncSections(releases[project], wos);
      releases := releases[project := releases[project].(done := done)];
    }

    method SetStatus(id: nat, to: Status, after: WorkOrder)
      requires id < |orders|
      modifies `orders
      ensures orders == old(orders)[id := after.(status := to,
                                                history := old(orders)[id].history + [Entry(Some(old(orders)[id].status), to)])]
    {
      var entry := Entry(Some(orders[id].status), to);
      orders := orders[id := after.(status := to, history := orders[id].history + [entry])];
    }

    method BookMaterial(id: nat, rework: bool, value: int, w: Outside) returns (ok: bool)
      modifies `bookings, `skipped
      ensures ok == Booked(old(Now()), id, rework, value, w).Some?
      ensures Now() == if ok then Booked(old(Now()), id, rework, value, w).value else old(Now())
      ensures value <= 0 ==> ok && bookings == old(bookings) && skipped == old(skipped) + [id]
      ensures value > 0 ==>
        skipped == old(skipped) && (ok <==> w.first == Accepted || (w.first == Conflict && w.second == Accepted))
      ensures value > 0 && ok ==> bookings == old(bookings) + [Booking(id, rework, value, w.first == Accepted)]
      ensures !ok ==> bookings == old(bookings)
    {
      if value <= 0 {
        skipped := skipped + [id];
        return true;
      }
      match w.first {
        case Accepted => bookings := bookings + [Booking(id, rework, value, true)]; ok := true;
        case Conflict =>
          ok := w.second.Accepted?;
          if ok {
            bookings := bookings + [Booking(id, rework, value, false)];
          }
        case Failure => ok := false;
      }
    }

    method ReleaseWorkOrder(id: nat, w: Outside) returns (reply: Reply)
      modifies this
      ensures (Now(), reply) == ReleaseOrder(old(Now()), id, w)
    {
      if !w.manager {
        return Denied;
      }
      if id >= |orders| {
        return NotFound;
      }
      if Released !in Allowed(orders[id].status) {
        return Refused;
      }
      if !w.projectLive {
        return NotFound;
      }
      if !w.reserved {
        return Refused;
      }
      SetStatus(id, Released, orders[id].(blocked := NotBlocked));
      RecomputePipeline(orders[id].project);
      reply := Ok;
    }

    method StartWorkOrder(id: nat, w: Outside) returns (reply: Reply)
      modifies this
      ensures (Now(), reply) == StartOrder(old(Now()), id, w)
    {
      if id >= |orders| {
        return NotFound;
      }
      if InProgress !in Allowed(orders[id].status) {
        return Refused;
      }
      if !w.projectLive {
        return NotFound;
      }
      var firstStart := orders[id].status == Released;
      SetStatus(id, InProgress, orders[id].(blocked := NotBlocked));
      if firstStart {
        var value := ValueLines(orders[id].lines, w.prices);
        var ok := BookMaterial(id, false, value, w);
        if !ok {
          skipped := skipped + [id];
          return CostFailed;
        }
      }
      RecomputePipeline(orders[id].project);
      reply := Ok;
    }

    method RequestInspection(id: nat, made: Option<real>, labor: bool, w: Outside) returns (reply: Reply)
      modifies this
      ensures (Now(), reply) == RequestQc(old(Now()), id, made, labor, w)
    {
      if id >= |orders| {
        return NotFound;
      }
      if QcPending !in Allowed(orders[id].status) {
        return Refused;
      }
      if !w.projectLive {
        return NotFound;
      }
      var done := if made.Some? then made.value else orders[id].ordered;
      SetStatus(id, QcPending, orders[id].(done := done));
      if labor && Posted(w).None? {
        return CostFailed;
      }
      RecomputePipeline(orders[id].project);
      reply := Ok;
    }

    method RecordInspection(id: nat, pass: bool, w: Outside) returns (reply: Reply)
      modifies this
      ensures (Now(), reply) == RecordQc(old(Now()), id, pass, w)
    {
      if id >= |orders| || !w.projectLive {
        return NotFound;
      }
      if pass {
        if Passed !in Allowed(orders[id].status) {
          return Refused;
        }
        SetStatus(id, Passed, orders[id].(blocked := NotBlocked));
      } else {
        if QcHold !in Allowed(orders[id].status) {
          return Refused;
        }
        SetStatus(id, QcHold, orders[id].(blocked := Held));
      }
      RecomputePipeline(orders[id].project);
      reply := Ok;
    }

    method ReworkWorkOrder(id: nat, w: Outside) returns (reply: Reply)
      modifies this
      ensures (Now(), reply) == ReworkOrder(old(Now()), id, w)
    {
      if id >= |orders| {
        return NotFound;
      }
      if Rework !in Allowed(orders[id].status) {
        return Refused;
      }
      if !w.projectLive {
        return NotFound;
      }
      if w.warehouse && w.stocked < |orders[id].lines| {
        return Refused;
      }
      var value := ValueLines(orders[id].lines, w.prices);
      var ok := BookMaterial(id, true, value, w);
      if !ok {
        return CostFailed;
      }
      SetStatus(id, Rework, orders[id].(blocked := NotBlocked));
      RecomputePipeline(orders[id].project);
      reply := Ok;
    }

    method MoveOn(id: nat, to: Status, w: Outside) returns (reply: Reply)
      requires to == Packed || to == Staged || to == Dispatched
      modifies this
      ensures (Now(), reply) == Move(old(Now()), id, to, w)
    {
      if id >= |orders| {
        return NotFound;
      }
      if to !in Allowed(orders[id].status) {
        return Refused;
      }
      if !w.projectLive {
        return NotFound;
      }
      SetStatus(id, to, if to == Dispatched then orders[id] else orders[id].(blocked := NotBlocked));
      RecomputePipeline(orders[id].project);
      reply := Ok;
    }
  }
}
