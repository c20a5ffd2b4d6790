/**
 Many stock requests in flight at once.

 Every database write is one step: a claim, a ledger insert that works or fails, a release, a row
 deletion. Requests interleave in any order. Steps that are not enabled leave the system alone, so
 every sequence of events is a run.
 */
module StockMachine {
  import opened Options
  import opened Stock
  import opened Sums

  datatype Job =
    | Movement(key: Key, qty: real)
    | Transfer(product: nat, source: nat, dest: nat, moved: real)
    | Send(warehouse: nat, lines: seq<(nat, real)>)

  datatype Phase =
    | Ready                  // about to claim the next posting, or, all posted, to finish
    | Holding                // the next posting is claimed, its ledger row not yet written
    | GivingBack             // the insert failed: the claim must be released
    | Unwinding(next: nat)   // the job failed: postings from `next` on are still in place
    | RowGone(next: nat)     // transfer: row deleted, stock not yet given back
    | StockBack(next: nat)   // invoice: stock given back, row not yet deleted
    | Done
    | Failed

  datatype Request = Request(job: Job, posted: nat, phase: Phase)

  datatype System = System(levels: Levels, rows: seq<Row>, requests: seq<Request>, undone: seq<Posting>)

  datatype Action =
    | Claim(allowNegative: bool)
    | InsertOk
    | InsertFails
    | GiveBack
    | Refuse      // a check before the next claim raises
    | Finish      // the rest of the request succeeds
    | Abandon     // something after the last posting raises
    | UndoFirst   // first write of the undo of one posting
    | UndoSecond  // second write of the undo of one posting

  datatype Event = Arrive(job: Job) | Step(r: nat, action: Action)

  const EmptySystem := System(map[], [], [], [])

  predicate WellFormed(job: Job) {
    match job
    case Movement(_, qty) => qty != 0.0
    case Transfer(_, source, dest, qty) => source != dest && qty > 0.0
    case Send(_, lines) => forall i :: 0 <= i < |lines| ==> lines[i].1 > 0.0
  }

  function Script(job: Job): seq<Posting> {
    match job
    case Movement(key, qty) => [Posting(key, qty)]
    case Transfer(product, source, dest, qty) =>
      [Posting(Key(product, source), -qty), Posting(Key(product, dest), qty)]
    case Send(warehouse, lines) => IssuePostings(warehouse, lines)
  }

  /** A failed request first undoes what it posted. */
  function GiveUp(q: Request): Request {
    q.(phase := if q.posted == 0 then Failed else Unwinding(0))
  }

  function Undone(q: Request, i: nat): Request {
    q.(phase := if i + 1 == q.posted then Failed else Unwinding(i + 1))
  }

  predicate Enabled(q: Request, action: Action) {
    var n := |Script(q.job)|;
    match action
    case Claim(_) => q.phase.Ready? && q.posted < n
    case InsertOk => q.phase.Holding? && q.posted < n
    case InsertFails => q.phase.Holding?
    case GiveBack => q.phase.GivingBack? && q.posted < n
    case Refuse => q.phase.Ready? && q.posted < n
    case Finish => q.phase.Ready? && q.posted == n
    case Abandon => q.job.Send? && q.phase.Ready? && q.posted == n
    case UndoFirst => q.phase.Unwinding?
    case UndoSecond => q.phase.StockBack? || (q.phase.RowGone? && q.phase.next < n)
  }

  function WithRequest(s: System, r: nat, q: Request): System
    requires r < |s.requests|
  {
    s.(requests := s.requests[r := q])
  }

  function ClaimStep(s: System, r: nat, allowNegative: bool): System
    requires r < |s.requests| && Enabled(s.requests[r], Claim(allowNegative))
  {
    var q := s.requests[r];
    var p := Script(q.job)[q.posted];
    if Accepts(s.levels, p.key, p.qty, allowNegative) then
      WithRequest(s, r, q.(phase := Holding)).(levels := Claimed(s.levels, p.key, p.qty))
    else
      WithRequest(s, r, GiveUp(q))
  }

  function InsertStep(s: System, r: nat): System
    requires r < |s.requests| && Enabled(s.requests[r], InsertOk)
  {
    var q := s.requests[r];
    var p := Script(q.job)[q.posted];
    WithRequest(s, r, q.(posted := q.posted + 1, phase := Ready))
      .(rows := s.rows + [Row(RowId(r, q.posted), p.key, p.qty)])
  }

  function GiveBackStep(s: System, r: nat): System
    requires r < |s.requests| && Enabled(s.requests[r], Action.GiveBack)
  {
    var q := s.requests[r];
    var p := Script(q.job)[q.posted];
    WithRequest(s, r, GiveUp(q))
      .(levels := Released(s.levels, p.key, p.qty),
        undone := if p.qty > 0.0 then s.undone + [p] else s.undone)
  }

  /** Transfers drop the row first; invoices read the row back and return its stock first. */
  function UndoFirstStep(s: System, r: nat): System
    requires r < |s.requests| && Enabled(s.requests[r], UndoFirst)
  {
    var q := s.requests[r];
    var i := q.phase.next;
    if q.job.Send? then
      match FindRow(s.rows, RowId(r, i))
      case None => WithRequest(s, r, Undone(q, i))
      case Some(row) =>
        WithRequest(s, r, q.(phase := StockBack(i))).(levels := Released(s.levels, row.key, row.qty))
    else
      WithRequest(s, r, q.(phase := RowGone(i))).(rows := DeleteRow(s.rows, RowId(r, i)))
  }

  function UndoSecondStep(s: System, r: nat): System
    requires r < |s.requests| && Enabled(s.requests[r], UndoSecond)
  {
    var q := s.requests[r];
    var i := q.phase.next;
    if q.phase.StockBack? then
      WithRequest(s, r, Undone(q, i)).(rows := DeleteRow(s.rows, RowId(r, i)))
    else
      var p := Script(q.job)[i];
      WithRequest(s, r, Undone(q, i)).(levels := Released(s.levels, p.key, p.qty))
  }

  function Next(s: System, e: Event): System {
    match e
    case Arrive(job) =>
      if WellFormed(job) then s.(requests := s.requests + [Request(job, 0, Ready)]) else s
    case Step(r, action) =>
      if r >= |s.requests| || !Enabled(s.requests[r], action) then s else
      var q := s.requests[r];
      match action
      case Claim(allowNegative) => ClaimStep(s, r, allowNegative)
      case InsertOk => InsertStep(s, r)
      case InsertFails => WithRequest(s, r, q.(phase := GivingBack))
      case GiveBack => GiveBackStep(s, r)
      case Refuse => WithRequest(s, r, GiveUp(q))
      case Finish => WithRequest(s, r, q.(phase := Done))
      case Abandon => WithRequest(s, r, GiveUp(q))
      case UndoFirst => UndoFirstStep(s, r)
      case UndoSecond => UndoSecondStep(s, r)
  }

  /** Program counters stay inside the script. */
  ghost predicate ShapedRequest(q: Request) {
    && WellFormed(q.job)
    && q.posted <= |Script(q.job)|
    && (q.phase.Holding? || q.phase.GivingBack? ==> q.posted < |Script(q.job)|)
    && (q.phase.Unwinding? || q.phase.RowGone? || q.phase.StockBack? ==> q.phase.next < q.posted)
    && (q.phase.Unwinding? || q.phase.RowGone? || q.phase.StockBack? ==>
          q.job.Send? || (q.job.Transfer? && q.posted == 1))
    && (q.phase.RowGone? ==> !q.job.Send?)
    && (q.phase.StockBack? ==> q.job.Send?)
    && (q.phase.Done? ==> q.posted == |Script(q.job)|)
  }

  function Run(s: System, events: seq<Event>): System {
    if events == [] then s else Next(Run(s, events[..|events| - 1]), events[|events| - 1])
  }

  // ---- what is in flight -----------------------------------------------------------------------

  function At(p: Posting, key: Key): real {
    if p.key == key then p.qty else 0.0
  }

  /** What the cache shows at `key` because of this request that the ledger does not. */
  function Pending(key: Key): Request -> real {
    (q: Request) =>
      var script := Script(q.job);
      match q.phase
      case Holding => if q.posted < |script| then At(script[q.posted], key) else 0.0
      case GivingBack => if q.posted < |script| then At(script[q.posted], key) else 0.0
      case RowGone(i) => if i < |script| then At(script[i], key) else 0.0
      case StockBack(i) => if i < |script| then -At(script[i], key) else 0.0
      case _ => 0.0
  }

  function InFlight(s: System, key: Key): real {
    Total(s.requests, Pending(key))
  }

  function OwnedBy(rows: seq<Row>, r: nat): seq<Row> {
    if rows == [] then []
    else (if rows[0].id.request == r then [rows[0]] else []) + OwnedBy(rows[1..], r)
  }

  /** The position of the first posting whose row still stands in the ledger. */
  function Standing(q: Request): nat {
    match q.phase
    case Unwinding(i) => i
    case StockBack(i) => i
    case RowGone(i) => i + 1
    case Failed => q.posted
    case _ => 0
  }

  function Expected(q: Request, r: nat): seq<Row>
    requires q.posted <= |Script(q.job)| && Standing(q) <= q.posted
  {
    RowsOf(r, Standing(q), Script(q.job)[Standing(q)..q.posted])
  }

  ghost predicate Owns(s: System, r: nat)
    requires r < |s.requests| && ShapedRequest(s.requests[r])
  {
    OwnedBy(s.rows, r) == Expected(s.requests[r], r)
  }

  /** Level rows exist wherever this request has claimed. */
  ghost predicate Touched(levels: Levels, q: Request)
    requires q.posted <= |Script(q.job)|
  {
    && (forall i :: 0 <= i < q.posted ==> Script(q.job)[i].key in levels)
    && (q.phase.Holding? || q.phase.GivingBack? ==>
          q.posted < |Script(q.job)| && Script(q.job)[q.posted].key in levels)
  }

  ghost predicate InvRequest(s: System, r: nat)
    requires r < |s.requests|
  {
    ShapedRequest(s.requests[r]) && Owns(s, r) && Touched(s.levels, s.requests[r])
  }

  ghost predicate Balanced(s: System, key: Key) {
    OnHand(s.levels, key) == LedgerSum(s.rows, key) + InFlight(s, key)
  }

  ghost predicate RowsCovered(s: System) {
    forall row :: row in s.rows ==> row.id.request < |s.requests| && row.key in s.levels
  }

  ghost predicate Inv(s: System) {
    && (forall r :: 0 <= r < |s.requests| ==> InvRequest(s, r))
    && RowsCovered(s)
    && (forall key :: Balanced(s, key))
  }

  lemma {:induction false} OwnedAppend(rows: seq<Row>, row: Row, r: nat)
    ensures OwnedBy(rows + [row], r)
         == OwnedBy(rows, r) + (if row.id.request == r then [row] else [])
  {
    if rows == [] {
      assert [row][1..] == [];
    } else {
      var head := if rows[0].id.request == r then [rows[0]] else [];
      var tail := if row.id.request == r then [row] else [];
      assert (rows + [row])[0] == rows[0] && (rows + [row])[1..] == rows[1..] + [row];
      OwnedAppend(rows[1..], row, r);
      assert head + (OwnedBy(rows[1..], r) + tail) == (head + OwnedBy(rows[1..], r)) + tail;
    }
  }

  lemma {:induction false} OwnedDelete(rows: seq<Row>, id: RowId, r: nat)
    ensures r != id.request ==> OwnedBy(DeleteRow(rows, id), r) == OwnedBy(rows, r)
    ensures var own := OwnedBy(rows, id.request);
            own != [] && own[0].id == id ==>
              && OwnedBy(DeleteRow(rows, id), id.request) == own[1..]
              && FindRow(rows, id) == Some(own[0])
  {
    if rows != [] && rows[0].id != id {
      OwnedDelete(rows[1..], id, r);
      var rest := DeleteRow(rows[1..], id);
      assert DeleteRow(rows, id)[0] == rows[0] && DeleteRow(rows, id)[1..] == rest;
    }
  }

  lemma {:induction false} OwnedNone(rows: seq<Row>, r: nat)
    requires forall row :: row in rows ==> row.id.request != r
    ensures OwnedBy(rows, r) == []
  {
    if rows != [] {
      OwnedNone(rows[1..], r);
    }
  }

  lemma {:induction false} DeleteKeeps(rows: seq<Row>, id: RowId)
    ensures forall row :: row in DeleteRow(rows, id) ==> row in rows
  {
    if rows != [] && rows[0].id != id {
      DeleteKeeps(rows[1..], id);
    }
  }

  /** The frame of a step of request r: the others keep their part of the invariant. */
  lemma OthersKept(s: System, t: System, r: nat)
    requires Inv(s) && r < |s.requests| && |t.requests| == |s.requests|
    requires forall o :: 0 <= o < |s.requests| && o != r ==> t.requests[o] == s.requests[o]
    requires forall o: nat :: o != r ==> OwnedBy(t.rows, o) == OwnedBy(s.rows, o)
    requires s.levels.Keys <= t.levels.Keys
    ensures forall o :: 0 <= o < |t.requests| && o != r ==> InvRequest(t, o)
  {
    forall o | 0 <= o < |t.requests| && o != r
      ensures InvRequest(t, o)
    {
      assert InvRequest(s, o);
    }
  }

  /** On hand moves at a key by what the request's in-flight quantity there does. */
  ghost predicate Accounted(s: System, t: System, r: nat, q: Request, key: Key)
    requires r < |s.requests|
  {
    OnHand(t.levels, key) - OnHand(s.levels, key) == Pending(key)(q) - Pending(key)(s.requests[r])
  }

  /** The request moves on, and the rows it owns stay the same. */
  ghost predicate SameRows(before: Request, q: Request, r: nat) {
    ShapedRequest(before) && ShapedRequest(q) && Expected(q, r) == Expected(before, r)
  }

  lemma RowsUntouched(s: System, t: System, r: nat, q: Request)
    requires Inv(s) && r < |s.requests|
    requires t.requests == s.requests[r := q] && t.rows == s.rows && s.levels.Keys <= t.levels.Keys
    requires SameRows(s.requests[r], q, r) && Touched(t.levels, q)
    requires forall key :: Accounted(s, t, r, q, key)
    ensures Inv(t)
  {
    assert InvRequest(s, r);
    OthersKept(s, t, r);
    forall key
      ensures Balanced(t, key)
    {
      assert Balanced(s, key) && Accounted(s, t, r, q, key);
      TotalUpdate(s.requests, r, q, Pending(key));
    }
  }

  lemma GiveUpKeepsInv(s: System, r: nat)
    requires Inv(s) && r < |s.requests| && s.requests[r].phase.Ready?
    requires s.requests[r].job.Send? || s.requests[r].posted < |Script(s.requests[r].job)|
    ensures Inv(WithRequest(s, r, GiveUp(s.requests[r])))
  {
    assert InvRequest(s, r);
    RowsUntouched(s, WithRequest(s, r, GiveUp(s.requests[r])), r, GiveUp(s.requests[r]));
  }

  lemma ClaimKeepsInv(s: System, r: nat, allowNegative: bool)
    requires Inv(s) && r < |s.requests| && Enabled(s.requests[r], Claim(allowNegative))
    ensures Inv(ClaimStep(s, r, allowNegative))
  {
    var q := s.requests[r];
    var p := Script(q.job)[q.posted];
    if Accepts(s.levels, p.key, p.qty, allowNegative) {
      AcceptedKeepsInv(s, r);
    } else {
      GiveUpKeepsInv(s, r);
    }
  }

  lemma AcceptedKeepsInv(s: System, r: nat)
    requires Inv(s) && r < |s.requests| && s.requests[r].phase.Ready?
    requires s.requests[r].posted < |Script(s.requests[r].job)|
    ensures var p := Script(s.requests[r].job)[s.requests[r].posted];
            Inv(WithRequest(s, r, s.requests[r].(phase := Holding)).(levels := Claimed(s.levels, p.key, p.qty)))
  {
    assert InvRequest(s, r);
    var q := s.requests[r];
    var p, held := Script(q.job)[q.posted], q.(phase := Holding);
    var t := WithRequest(s, r, held).(levels := Claimed(s.levels, p.key, p.qty));
    assert forall key :: OnHand(t.levels, key) == OnHand(s.levels, key) + At(p, key);
    assert forall key :: Pending(key)(held) == At(p, key) && Pending(key)(q) == 0.0;
    RowsUntouched(s, t, r, held);
  }

  lemma GiveBackKeepsInv(s: System, r: nat)
    requires Inv(s) && r < |s.requests| && Enabled(s.requests[r], Action.GiveBack)
    ensures Inv(GiveBackStep(s, r))
  {
    var q, t := s.requests[r], GiveBackStep(s, r);
    assert InvRequest(s, r);
    var p := Script(q.job)[q.posted];
    assert forall key :: OnHand(t.levels, key) == OnHand(s.levels, key) - At(p, key);
    assert forall key :: Pending(key)(q) == At(p, key) && Pending(key)(GiveUp(q)) == 0.0;
    RowsUntouched(s, t, r, t.requests[r]);
  }

  lemma InsertBalances(s: System, r: nat, key: Key)
    requires r < |s.requests| && Enabled(s.requests[r], InsertOk) && Balanced(s, key)
    ensures Balanced(InsertStep(s, r), key)
  {
    var t := InsertStep(s, r);
    TotalUpdate(s.requests, r, t.requests[r], Pending(key));
    TotalSnoc(s.rows, t.rows[|s.rows|], QtyAt(key));
  }

  lemma InsertKeepsInv(s: System, r: nat)
    requires Inv(s) && r < |s.requests| && Enabled(s.requests[r], InsertOk)
    ensures Inv(InsertStep(s, r))
  {
    var q, t := s.requests[r], InsertStep(s, r);
    assert InvRequest(s, r);
    var row := t.rows[|s.rows|];
    forall o: nat
      ensures OwnedBy(t.rows, o) == OwnedBy(s.rows, o) + (if o == r then [row] else [])
    {
      OwnedAppend(s.rows, row, o);
    }
    OthersKept(s, t, r);
    assert Expected(t.requests[r], r) == Expected(q, r) + [row];
    forall key
      ensures Balanced(t, key)
    {
      InsertBalances(s, r, key);
    }
  }

  lemma FirstStandingRow(s: System, r: nat)
    requires r < |s.requests| && InvRequest(s, r) && Standing(s.requests[r]) < s.requests[r].posted
    ensures var i := Standing(s.requests[r]);
            var own, p := OwnedBy(s.rows, r), Script(s.requests[r].job)[i];
            && own != [] && own[0] == Row(RowId(r, i), p.key, p.qty)
            && own[1..] == RowsOf(r, i + 1, Script(s.requests[r].job)[i + 1..s.requests[r].posted])
            && FindRow(s.rows, RowId(r, i)) == Some(own[0])
            && OwnedBy(DeleteRow(s.rows, RowId(r, i)), r) == own[1..]
  {
    OwnedDelete(s.rows, RowId(r, Standing(s.requests[r])), r);
  }

  lemma DeleteBalances(s: System, t: System, r: nat, i: nat, key: Key)
    requires Balanced(s, key) && r < |s.requests| && InvRequest(s, r)
    requires s.requests[r].posted > i == Standing(s.requests[r])
    requires |t.requests| == |s.requests| && t.requests == s.requests[r := t.requests[r]]
    requires t.levels == s.levels && t.rows == DeleteRow(s.rows, RowId(r, i))
    requires Pending(key)(t.requests[r])
          == Pending(key)(s.requests[r]) + At(Script(s.requests[r].job)[i], key)
    ensures Balanced(t, key)
  {
    FirstStandingRow(s, r);
    TotalUpdate(s.requests, r, t.requests[r], Pending(key));
    LedgerSumDelete(s.rows, RowId(r, i), key);
  }

  /** Deleting the row of the first standing posting. */
  lemma DeleteKeepsInv(s: System, t: System, r: nat, i: nat)
    requires Inv(s) && r < |s.requests| && InvRequest(s, r)
    requires s.requests[r].posted > i == Standing(s.requests[r])
    requires |t.requests| == |s.requests| && t.requests == s.requests[r := t.requests[r]]
    requires t.levels == s.levels && t.rows == DeleteRow(s.rows, RowId(r, i))
    requires t.requests[r].job == s.requests[r].job && t.requests[r].posted == s.requests[r].posted
    requires ShapedRequest(t.requests[r]) && Touched(t.levels, t.requests[r])
    requires Standing(t.requests[r]) == i + 1
    requires forall key :: Pending(key)(t.requests[r]) ==
                           Pending(key)(s.requests[r]) + At(Script(s.requests[r].job)[i], key)
    ensures Inv(t)
  {
    forall o: nat | o != r
      ensures OwnedBy(t.rows, o) == OwnedBy(s.rows, o)
    {
      OwnedDelete(s.rows, RowId(r, i), o);
    }
    OthersKept(s, t, r);
    FirstStandingRow(s, r);
    assert InvRequest(t, r);
    DeleteKeeps(s.rows, RowId(r, i));
    forall key
      ensures Balanced(t, key)
    {
      assert Balanced(s, key);
      DeleteBalances(s, t, r, i, key);
    }
  }

  lemma UndoFirstKeepsInv(s: System, r: nat)
    requires Inv(s) && r < |s.requests| && Enabled(s.requests[r], UndoFirst)
    ensures Inv(UndoFirstStep(s, r))
  {
    var q, t := s.requests[r], UndoFirstStep(s, r);
    assert InvRequest(s, r);
    var i := q.phase.next;
    if q.job.Send? {
      FirstStandingRow(s, r);
      RowsUntouched(s, t, r, t.requests[r]);
    } else {
      DeleteKeepsInv(s, t, r, i);
    }
  }

  lemma UndoSecondKeepsInv(s: System, r: nat)
    requires Inv(s) && r < |s.requests| && Enabled(s.requests[r], UndoSecond)
    ensures Inv(UndoSecondStep(s, r))
  {
    var q, t := s.requests[r], UndoSecondStep(s, r);
    assert InvRequest(s, r);
    var i := q.phase.next;
    if q.phase.StockBack? {
      DeleteKeepsInv(s, t, r, i);
    } else {
      RowsUntouched(s, t, r, t.requests[r]);
    }
  }

  lemma ArriveKeepsInv(s: System, job: Job)
    requires Inv(s) && WellFormed(job)
    ensures Inv(Next(s, Arrive(job)))
  {
    var t := Next(s, Arrive(job));
    OwnedNone(s.rows, |s.requests|);
    forall r | 0 <= r < |t.requests|
      ensures InvRequest(t, r)
    {
      if r < |s.requests| {
        assert InvRequest(s, r);
      }
    }
    forall key
      ensures Balanced(t, key)
    {
      assert Balanced(s, key);
      TotalSnoc(s.requests, Request(job, 0, Ready), Pending(key));
    }
  }

  /** A failed insert, or the end of a request, moves nothing. */
  lemma PhaseKeepsInv(s: System, r: nat, phase: Phase)
    requires Inv(s) && r < |s.requests|
    requires (phase.GivingBack? && Enabled(s.requests[r], InsertFails)) || (phase.Done? && Enabled(s.requests[r], Finish))
    ensures Inv(WithRequest(s, r, s.requests[r].(phase := phase)))
  {
    assert InvRequest(s, r);
    var q := s.requests[r].(phase := phase);
    RowsUntouched(s, WithRequest(s, r, q), r, q);
  }

  lemma NextKeepsInv(s: System, e: Event)
    requires Inv(s)
    ensures Inv(Next(s, e))
  {
    match e
    case Arrive(job) =>
      if WellFormed(job) {
        ArriveKeepsInv(s, job);
      }
    case Step(r, action) =>
      if r < |s.requests| && Enabled(s.requests[r], action) {
        match action
        case Claim(allowNegative) => ClaimKeepsInv(s, r, allowNegative);
        case InsertOk => InsertKeepsInv(s, r);
        case InsertFails => PhaseKeepsInv(s, r, GivingBack);
        case GiveBack => GiveBackKeepsInv(s, r);
        case Refuse => GiveUpKeepsInv(s, r);
        case Finish => PhaseKeepsInv(s, r, Done);
        case Abandon => GiveUpKeepsInv(s, r);
        case UndoFirst => UndoFirstKeepsInv(s, r);
        case UndoSecond => UndoSecondKeepsInv(s, r);
      }
  }

  lemma {:induction false} RunKeepsInv(events: seq<Event>)
    ensures Inv(Run(EmptySystem, events))
  {
    if events == [] {
      assert forall key :: Balanced(EmptySystem, key);
    } else {
      RunKeepsInv(events[..|events| - 1]);
      NextKeepsInv(Run(EmptySystem, events[..|events| - 1]), events[|events| - 1]);
    }
  }

  // ---- main results ------------------------------------------------------------------------------

  predicate Quiet(s: System) {
    forall q :: q in s.requests ==> q.phase.Done? || q.phase.Failed?
  }

  /** In every interleaving the cache is the ledger plus what is in flight, and covers its keys. */
  lemma CacheFollowsLedger(events: seq<Event>, key: Key)
    ensures var s := Run(EmptySystem, events);
            && OnHand(s.levels, key) == LedgerSum(s.rows, key) + InFlight(s, key)
            && (forall row :: row in s.rows ==> row.key in s.levels)
  {
    RunKeepsInv(events);
    assert Balanced(Run(EmptySystem, events), key);
  }

  /** Once nothing is in flight, cache and ledger agree everywhere: reconcile finds no drift. */
  lemma QuietMeansConsistent(events: seq<Event>, key: Key)
    requires Quiet(Run(EmptySystem, events))
    ensures var s := Run(EmptySystem, events);
            OnHand(s.levels, key) == LedgerSum(s.rows, key)
    ensures var s := Run(EmptySystem, events);
            key in s.levels ==> Close(LedgerSum(s.rows, key), s.levels[key])
  {
    CacheFollowsLedger(events, key);
    TotalZero(Run(EmptySystem, events).requests, Pending(key));
  }

  /** A finished job left all its rows, a failed one none, whatever ran beside it. */
  lemma FinishedAllOrNothing(events: seq<Event>, r: nat)
    requires r < |Run(EmptySystem, events).requests|
    ensures var s := Run(EmptySystem, events);
            && (s.requests[r].phase.Done? ==>
                  OwnedBy(s.rows, r) == RowsOf(r, 0, Script(s.requests[r].job)))
            && (s.requests[r].phase.Failed? ==> OwnedBy(s.rows, r) == [])
  {
    RunKeepsInv(events);
    var s := Run(EmptySystem, events);
    assert InvRequest(s, r);
    assert s.requests[r].phase.Done? ==>
        Script(s.requests[r].job)[0..s.requests[r].posted] == Script(s.requests[r].job);
  }

  predicate NoOverdraft(events: seq<Event>) {
    forall e :: e in events && e.Step? && e.action.Claim? ==> !e.action.allowNegative
  }

  function Negated(key: Key): Posting -> real {
    (p: Posting) => -At(p, key)
  }

  lemma {:induction false} UndoneOnlyLowers(undone: seq<Posting>, key: Key)
    requires forall p :: p in undone ==> p.qty > 0.0
    ensures Total(undone, Negated(key)) <= 0.0
  {
    if undone != [] {
      UndoneOnlyLowers(undone[1..], key);
    }
  }

  ghost predicate Bounded(s: System, key: Key) {
    && OnHand(s.levels, key) >= Total(s.undone, Negated(key))
    && (forall p :: p in s.undone ==> p.qty > 0.0)
  }

  lemma ClaimKeepsBound(s: System, r: nat, key: Key)
    requires r < |s.requests| && Enabled(s.requests[r], Claim(false)) && Bounded(s, key)
    ensures Bounded(ClaimStep(s, r, false), key)
  {
    UndoneOnlyLowers(s.undone, key);
  }

  lemma GiveBackKeepsBound(s: System, r: nat, key: Key)
    requires r < |s.requests| && Enabled(s.requests[r], Action.GiveBack) && Bounded(s, key)
    requires ShapedRequest(s.requests[r]) && Touched(s.levels, s.requests[r])
    ensures Bounded(GiveBackStep(s, r), key)
  {
    TotalSnoc(s.undone, Script(s.requests[r].job)[s.requests[r].posted], Negated(key));
  }

  /** Undoing only ever gives issued stock back. */
  lemma ReleaseKeepsBound(s: System, t: System, issued: Key, qty: real, key: Key)
    requires Bounded(s, key) && t.undone == s.undone && t.levels == Released(s.levels, issued, qty) && qty < 0.0
    ensures Bounded(t, key)
  {
  }

  lemma UnwindsIssues(q: Request)
    requires ShapedRequest(q) && (q.phase.Unwinding? || q.phase.RowGone? || q.phase.StockBack?)
    ensures q.phase.next < |Script(q.job)| && Script(q.job)[q.phase.next].qty < 0.0
  {
  }

  lemma UndoFirstKeepsBound(s: System, r: nat, key: Key)
    requires r < |s.requests| && InvRequest(s, r) && Enabled(s.requests[r], UndoFirst) && Bounded(s, key)
    ensures Bounded(UndoFirstStep(s, r), key)
  {
    var q := s.requests[r];
    FirstStandingRow(s, r);
    UnwindsIssues(q);
    if q.job.Send? {
      var p := Script(q.job)[q.phase.next];
      ReleaseKeepsBound(s, UndoFirstStep(s, r), p.key, p.qty, key);
    }
  }

  lemma UndoSecondKeepsBound(s: System, r: nat, key: Key)
    requires r < |s.requests| && ShapedRequest(s.requests[r]) && Enabled(s.requests[r], UndoSecond)
    requires Bounded(s, key)
    ensures Bounded(UndoSecondStep(s, r), key)
  {
    var q := s.requests[r];
    UnwindsIssues(q);
    if q.phase.RowGone? {
      var p := Script(q.job)[q.phase.next];
      ReleaseKeepsBound(s, UndoSecondStep(s, r), p.key, p.qty, key);
    }
  }

  lemma NextKeepsBound(s: System, e: Event, key: Key)
    requires Inv(s) && Bounded(s, key)
    requires e.Step? && e.action.Claim? ==> !e.action.allowNegative
    ensures Bounded(Next(s, e), key)
  {
    if e.Step? && e.r < |s.requests| && Enabled(s.requests[e.r], e.action) {
      assert InvRequest(s, e.r);
      match e.action
      case Claim(_) => ClaimKeepsBound(s, e.r, key);
      case GiveBack => GiveBackKeepsBound(s, e.r, key);
      case UndoFirst => UndoFirstKeepsBound(s, e.r, key);
      case UndoSecond => UndoSecondKeepsBound(s, e.r, key);
      case _ =>
    }
  }

  /** With negative stock off, the cache never sinks below the inbound claims rolled back. */
  lemma {:induction false} OverdraftBound(events: seq<Event>, key: Key)
    requires NoOverdraft(events)
    ensures Bounded(Run(EmptySystem, events), key)
  {
    if events != [] {
      var before := events[..|events| - 1];
      OverdraftBound(before, key);
      RunKeepsInv(before);
      NextKeepsBound(Run(EmptySystem, before), events[|events| - 1], key);
    }
  }

  /** This step is a failing ledger insert of stock coming in. */
  predicate InboundFailure(s: System, e: Event) {
    && e.Step? && e.action.InsertFails? && e.r < |s.requests|
    && var q := s.requests[e.r];
       q.phase.Holding? && q.posted < |Script(q.job)| && Script(q.job)[q.posted].qty > 0.0
  }

  predicate NoInboundFailure(events: seq<Event>) {
    forall n :: 0 <= n < |events| ==> !InboundFailure(Run(EmptySystem, events[..n]), events[n])
  }

  /** A claim about to be given back is not one of stock coming in. */
  predicate NoInboundGiveBack(q: Request) {
    q.phase.GivingBack? && q.posted < |Script(q.job)| ==> Script(q.job)[q.posted].qty <= 0.0
  }

  ghost predicate NoInboundUndo(s: System) {
    s.undone == [] && forall r :: 0 <= r < |s.requests| ==> NoInboundGiveBack(s.requests[r])
  }

  lemma NextUndoesNothing(s: System, e: Event)
    requires NoInboundUndo(s) && !InboundFailure(s, e)
    ensures NoInboundUndo(Next(s, e))
  {
    if e.Step? && e.r < |s.requests| && Enabled(s.requests[e.r], e.action) {
      var q, t := s.requests[e.r], Next(s, e);
      assert NoInboundGiveBack(q);
      assert t.requests == s.requests[e.r := t.requests[e.r]];
      assert e.action.InsertFails? || !t.requests[e.r].phase.GivingBack?;
      assert NoInboundGiveBack(t.requests[e.r]);
    }
  }

  lemma {:induction false} NothingUndone(events: seq<Event>)
    requires NoInboundFailure(events)
    ensures NoInboundUndo(Run(EmptySystem, events))
  {
    if events != [] {
      var n := |events| - 1;
      assert forall m :: 0 <= m < n ==> events[..n][..m] == events[..m];
      NothingUndone(events[..n]);
      NextUndoesNothing(Run(EmptySystem, events[..n]), events[n]);
    }
  }

  /** Concurrent issues can never jointly overdraw: negative stock off, no inbound write failing. */
  lemma NeverOverdrawn(events: seq<Event>, key: Key)
    requires NoOverdraft(events) && NoInboundFailure(events)
    ensures OnHand(Run(EmptySystem, events).levels, key) >= 0.0
  {
    OverdraftBound(events, key);
    NothingUndone(events);
  }

  lemma RunSnoc(s: System, events: seq<Event>, e: Event)
    ensures Run(s, events + [e]) == Next(Run(s, events), e)
  {
    assert (events + [e])[..|events|] == events;
  }

  /** A receipt and an issue arrive, and both claim. */
  function BothClaim(receipt: Job, issue: Job): seq<Event> {
    [Arrive(receipt), Arrive(issue)] + [Step(0, Claim(false))] + [Step(1, Claim(false))]
  }

  lemma BothHold(key: Key)
    ensures var receipt, issue := Movement(key, 5.0), Movement(key, -5.0);
            Run(EmptySystem, BothClaim(receipt, issue))
            == System(map[key := 0.0], [], [Request(receipt, 0, Holding), Request(issue, 0, Holding)], [])
  {
    var receipt, issue := Movement(key, 5.0), Movement(key, -5.0);
    var a := [Arrive(receipt), Arrive(issue)];
    var b := a + [Step(0, Claim(false))];
    RunSnoc(EmptySystem, [], Arrive(receipt));
    RunSnoc(EmptySystem, [Arrive(receipt)], Arrive(issue));
    assert [] + [Arrive(receipt)] == [Arrive(receipt)] && [Arrive(receipt)] + [Arrive(issue)] == a;
    assert Run(EmptySystem, a)
        == System(map[], [], [Request(receipt, 0, Ready), Request(issue, 0, Ready)], []);
    RunSnoc(EmptySystem, a, Step(0, Claim(false)));
    assert Run(EmptySystem, b)
        == System(map[key := 5.0], [], [Request(receipt, 0, Holding), Request(issue, 0, Ready)], []);
    RunSnoc(EmptySystem, b, Step(1, Claim(false)));
  }

  lemma ReceiptRolledBack(key: Key)
    ensures var receipt, issue := Movement(key, 5.0), Movement(key, -5.0);
            var s := System(map[key := 0.0], [], [Request(receipt, 0, Holding), Request(issue, 0, Holding)], []);
            OnHand(Next(Next(s, Step(0, InsertFails)), Step(0, Action.GiveBack)).levels, key) == -5.0
  {
  }

  /** The proviso is needed: an issue may use stock whose receipt is then rolled back. */
  lemma OverdraftWithoutTheProviso()
    ensures exists events, key :: NoOverdraft(events) && OnHand(Run(EmptySystem, events).levels, key) < 0.0
  {
    var key := Key(0, 0);
    var c := BothClaim(Movement(key, 5.0), Movement(key, -5.0));
    var e := c + [Step(0, InsertFails)] + [Step(0, Action.GiveBack)];
    assert OnHand(Run(EmptySystem, e).levels, key) == -5.0 by {
      BothHold(key);
      ReceiptRolledBack(key);
      RunSnoc(EmptySystem, c, Step(0, InsertFails));
      RunSnoc(EmptySystem, c + [Step(0, InsertFails)], Step(0, Action.GiveBack));
    }
    assert NoOverdraft(e);
  }

  // ---- exactly when stock goes below zero ----------------------------------------------------------------

  /** The step gives back an inbound claim at this key of which too much has already been used. */
  predicate Overreaches(s: System, e: Event, key: Key) {
    && e.Step? && e.r < |s.requests| && e.action.GiveBack? && Enabled(s.requests[e.r], e.action)
    && var p := Script(s.requests[e.r].job)[s.requests[e.r].posted];
       p.key == key && p.qty > OnHand(s.levels, key)
  }

  lemma ReleaseGoesBelowIff(s: System, t: System, p: Posting, key: Key)
    requires OnHand(s.levels, key) >= 0.0 && t.levels == Released(s.levels, p.key, p.qty) && p.key in s.levels
    ensures OnHand(t.levels, key) < 0.0 <==> p.key == key && p.qty > OnHand(s.levels, key)
  {
  }

  lemma UndoFirstRaises(s: System, r: nat, key: Key)
    requires r < |s.requests| && InvRequest(s, r) && Enabled(s.requests[r], UndoFirst)
    ensures OnHand(UndoFirstStep(s, r).levels, key) >= OnHand(s.levels, key)
  {
    FirstStandingRow(s, r);
    UnwindsIssues(s.requests[r]);
  }

  lemma UndoSecondRaises(s: System, r: nat, key: Key)
    requires r < |s.requests| && ShapedRequest(s.requests[r]) && Enabled(s.requests[r], UndoSecond)
    ensures OnHand(UndoSecondStep(s, r).levels, key) >= OnHand(s.levels, key)
  {
    UnwindsIssues(s.requests[r]);
  }

  lemma ClaimStaysAbove(s: System, r: nat, key: Key)
    requires r < |s.requests| && Enabled(s.requests[r], Claim(false)) && OnHand(s.levels, key) >= 0.0
    ensures OnHand(ClaimStep(s, r, false).levels, key) >= 0.0
  {
  }

  lemma StepGoesBelowIff(s: System, e: Event, key: Key)
    requires Inv(s) && OnHand(s.levels, key) >= 0.0
    requires e.Step? && e.action.Claim? ==> !e.action.allowNegative
    ensures OnHand(Next(s, e).levels, key) < 0.0 <==> Overreaches(s, e, key)
  {
    if e.Step? && e.r < |s.requests| && Enabled(s.requests[e.r], e.action) {
      assert InvRequest(s, e.r);
      match e.action
      case Claim(_) => ClaimStaysAbove(s, e.r, key);
      case GiveBack =>
        var q := s.requests[e.r];
        ReleaseGoesBelowIff(s, GiveBackStep(s, e.r), Script(q.job)[q.posted], key);
      case UndoFirst => UndoFirstRaises(s, e.r, key);
      case UndoSecond => UndoSecondRaises(s, e.r, key);
      case _ =>
    }
  }

  ghost predicate NeverBelow(events: seq<Event>, key: Key) {
    forall n :: 0 <= n <= |events| ==> OnHand(Run(EmptySystem, events[..n]).levels, key) >= 0.0
  }

  predicate NothingOverreaches(events: seq<Event>, key: Key) {
    forall n :: 0 <= n < |events| ==> !Overreaches(Run(EmptySystem, events[..n]), events[n], key)
  }

  lemma RunOneMore(events: seq<Event>, n: nat)
    requires n < |events|
    ensures Run(EmptySystem, events[..n + 1]) == Next(Run(EmptySystem, events[..n]), events[n])
  {
    assert events[..n + 1][..n] == events[..n];
  }

  lemma {:induction false} StaysAbove(events: seq<Event>, key: Key, n: nat)
    requires NoOverdraft(events) && NothingOverreaches(events, key) && n <= |events|
    ensures OnHand(Run(EmptySystem, events[..n]).levels, key) >= 0.0
  {
    if n > 0 {
      StaysAbove(events, key, n - 1);
      RunKeepsInv(events[..n - 1]);
      RunOneMore(events, n - 1);
      StepGoesBelowIff(Run(EmptySystem, events[..n - 1]), events[n - 1], key);
    }
  }

  /**
   With negative stock off, a key stays at or above zero throughout a run exactly when no step of it
   gives back an inbound claim larger than what is then on hand.
   */
  lemma NeverBelowIff(events: seq<Event>, key: Key)
    requires NoOverdraft(events)
    ensures NeverBelow(events, key) <==> NothingOverreaches(events, key)
  {
    if NothingOverreaches(events, key) {
      forall n | 0 <= n <= |events|
        ensures OnHand(Run(EmptySystem, events[..n]).levels, key) >= 0.0
      {
        StaysAbove(events, key, n);
      }
    }
    if NeverBelow(events, key) {
      forall n | 0 <= n < |events|
        ensures !Overreaches(Run(EmptySystem, events[..n]), events[n], key)
      {
        RunKeepsInv(events[..n]);
        RunOneMore(events, n);
        assert OnHand(Run(EmptySystem, events[..n]).levels, key) >= 0.0;
        assert OnHand(Run(EmptySystem, events[..n + 1]).levels, key) >= 0.0;
        StepGoesBelowIff(Run(EmptySystem, events[..n]), events[n], key);
      }
    }
  }

  // ---- the cache as a sum over requests ------------------------------------------------------------

  /** What one request has done to the cache at a key, so far. */
  function Net(q: Request, key: Key): real {
    var script := Script(q.job);
    (if Standing(q) <= q.posted <= |script|
     then Total(script[Standing(q)..q.posted], PostedAt(key)) else 0.0) + Pending(key)(q)
  }

  function NetAt(key: Key): Request -> real {
    (q: Request) => Net(q, key)
  }

  function SumUpTo(rows: seq<Row>, key: Key, n: nat): real {
    if n == 0 then 0.0 else SumUpTo(rows, key, n - 1) + LedgerSum(OwnedBy(rows, n - 1), key)
  }

  lemma {:induction false} LedgerSplitsByRequest(rows: seq<Row>, key: Key, n: nat)
    ensures rows == [] ==> SumUpTo(rows, key, n) == 0.0
    ensures rows != [] ==>
      SumUpTo(rows, key, n) == SumUpTo(rows[1..], key, n)
                               + (if rows[0].id.request < n then QtyAt(key)(rows[0]) else 0.0)
  {
    if n > 0 {
      LedgerSplitsByRequest(rows, key, n - 1);
      if rows != [] {
        var own := OwnedBy(rows, n - 1);
        if rows[0].id.request == n - 1 {
          assert own[0] == rows[0] && own[1..] == OwnedBy(rows[1..], n - 1);
        } else {
          assert own == OwnedBy(rows[1..], n - 1);
        }
      }
    }
  }

  lemma {:induction false} LedgerIsSumOverRequests(rows: seq<Row>, key: Key, n: nat)
    requires forall row :: row in rows ==> row.id.request < n
    ensures LedgerSum(rows, key) == SumUpTo(rows, key, n)
  {
    LedgerSplitsByRequest(rows, key, n);
    if rows != [] {
      LedgerIsSumOverRequests(rows[1..], key, n);
    }
  }

  lemma {:induction false} RowsOfTotal(r: nat, first: nat, postings: seq<Posting>, key: Key)
    ensures LedgerSum(RowsOf(r, first, postings), key) == Total(postings, PostedAt(key))
    decreases postings
  {
    if postings != [] {
      assert RowsOf(r, first, postings)[1..] == RowsOf(r, first + 1, postings[1..]);
      RowsOfTotal(r, first + 1, postings[1..], key);
    }
  }

  lemma {:induction false} NetSum(s: System, key: Key, n: nat)
    requires Inv(s) && n <= |s.requests|
    ensures Total(s.requests[..n], NetAt(key))
         == SumUpTo(s.rows, key, n) + Total(s.requests[..n], Pending(key))
  {
    if n > 0 {
      NetSum(s, key, n - 1);
      assert InvRequest(s, n - 1);
      var q := s.requests[n - 1];
      assert s.requests[..n] == s.requests[..n - 1] + [q];
      TotalSnoc(s.requests[..n - 1], q, NetAt(key));
      TotalSnoc(s.requests[..n - 1], q, Pending(key));
      RowsOfTotal(n - 1, Standing(q), Script(q.job)[Standing(q)..q.posted], key);
    }
  }

  /** In every run each cached quantity is the sum of what the individual requests did to it. */
  lemma CacheIsSumOfRequests(events: seq<Event>, key: Key)
    ensures var s := Run(EmptySystem, events);
            OnHand(s.levels, key) == Total(s.requests, NetAt(key))
  {
    RunKeepsInv(events);
    var s := Run(EmptySystem, events);
    assert Balanced(s, key);
    LedgerIsSumOverRequests(s.rows, key, |s.requests|);
    NetSum(s, key, |s.requests|);
    assert s.requests[..|s.requests|] == s.requests;
  }

  function NetOver(q: Request, product: nat, warehouses: seq<nat>): real {
    if warehouses == [] then 0.0
    else Net(q, Key(product, warehouses[0])) + NetOver(q, product, warehouses[1..])
  }

  lemma TotalOfTwo(a: Posting, b: Posting, key: Key)
    ensures Total([a, b], PostedAt(key)) == At(a, key) + At(b, key)
  {
    TotalSnoc([a], b, PostedAt(key));
    TotalSnoc([], a, PostedAt(key));
    assert [a] + [b] == [a, b] && [] + [a] == [a];
  }

  /** What a settled transfer has done to the cache at one key. */
  lemma SettledNet(q: Request, key: Key)
    requires ShapedRequest(q) && q.job.Transfer? && (q.phase.Done? || q.phase.Failed?)
    ensures Net(q, key) ==
      (if q.phase.Done? && key == Key(q.job.product, q.job.source) then -q.job.moved else 0.0) +
      (if q.phase.Done? && key == Key(q.job.product, q.job.dest) then q.job.moved else 0.0)
  {
    var script := Script(q.job);
    if q.phase.Done? {
      assert script[0..2] == [script[0], script[1]];
      TotalOfTwo(script[0], script[1], key);
    } else {
      assert script[q.posted..q.posted] == [];
    }
  }

  /** What a settled request comes to at one key: nothing if it failed, its quantities if it is done. */
  function EffectAt(key: Key): Request -> real {
    (q: Request) =>
      if !q.phase.Done? then 0.0 else
      match q.job
      case Movement(at, qty) => if key == at then qty else 0.0
      case Transfer(product, source, dest, qty) =>
        (if key == Key(product, source) then -qty else 0.0) + (if key == Key(product, dest) then qty else 0.0)
      case Send(warehouse, lines) => if key.warehouse == warehouse then -Total(lines, DemandFor(key.product)) else 0.0
  }

  lemma SettledEffect(q: Request, key: Key)
    requires ShapedRequest(q) && (q.phase.Done? || q.phase.Failed?)
    ensures Net(q, key) == EffectAt(key)(q)
  {
    var script := Script(q.job);
    if q.phase.Done? {
      assert script[0..|script|] == script;
      match q.job
      case Movement(at, qty) =>
        TotalSnoc([], script[0], PostedAt(key));
        assert [] + [script[0]] == script;
      case Transfer(_, _, _, _) => TotalOfTwo(script[0], script[1], key);
      case Send(warehouse, lines) => DemandIsPosted(lines, key, warehouse);
    } else {
      assert script[q.posted..q.posted] == [];
    }
  }

  lemma {:induction false} TotalAlike(s: seq<Request>, f: Request -> real, g: Request -> real)
    requires forall i :: 0 <= i < |s| ==> f(s[i]) == g(s[i])
    ensures Total(s, f) == Total(s, g)
  {
    if s != [] {
      TotalAlike(s[1..], f, g);
    }
  }

  /** Once nothing is in flight, every cached quantity is what the finished requests asked for, added up. */
  lemma QuietStockIs(events: seq<Event>, key: Key)
    requires Quiet(Run(EmptySystem, events))
    ensures var s := Run(EmptySystem, events);
            OnHand(s.levels, key) == Total(s.requests, EffectAt(key))
  {
    var s := Run(EmptySystem, events);
    RunKeepsInv(events);
    CacheIsSumOfRequests(events, key);
    forall r | 0 <= r < |s.requests|
      ensures NetAt(key)(s.requests[r]) == EffectAt(key)(s.requests[r])
    {
      assert InvRequest(s, r);
      SettledEffect(s.requests[r], key);
    }
    TotalAlike(s.requests, NetAt(key), EffectAt(key));
  }

  lemma {:induction false} TransferNet(q: Request, product: nat, warehouses: seq<nat>)
    requires ShapedRequest(q) && q.job.Transfer? && (q.phase.Done? || q.phase.Failed?)
    requires Distinct(warehouses)
    ensures NetOver(q, product, warehouses) ==
      (if q.phase.Done? && product == q.job.product && q.job.source in warehouses
       then -q.job.moved else 0.0) +
      (if q.phase.Done? && product == q.job.product && q.job.dest in warehouses
       then q.job.moved else 0.0)
  {
    if warehouses != [] {
      TransferNet(q, product, warehouses[1..]);
      SettledNet(q, Key(product, warehouses[0]));
      assert forall w :: w in warehouses <==> w == warehouses[0] || w in warehouses[1..];
    }
  }

  function NetOverAt(product: nat, warehouses: seq<nat>): Request -> real {
    (q: Request) => NetOver(q, product, warehouses)
  }

  lemma {:induction false} TotalSum(
    s: seq<Request>, f: Request -> real, g: Request -> real, h: Request -> real)
    requires forall x :: h(x) == f(x) + g(x)
    ensures Total(s, h) == Total(s, f) + Total(s, g)
  {
    if s != [] {
      TotalSum(s[1..], f, g, h);
    }
  }

  /** In every run a product's stock over some warehouses is the sum of what the requests did there. */
  lemma {:induction false} StockIsSumOfRequests(events: seq<Event>, product: nat, warehouses: seq<nat>)
    ensures var s := Run(EmptySystem, events);
            StockOver(s.levels, product, warehouses) == Total(s.requests, NetOverAt(product, warehouses))
  {
    var s := Run(EmptySystem, events);
    if warehouses == [] {
      TotalZero(s.requests, NetOverAt(product, []));
    } else {
      var key := Key(product, warehouses[0]);
      StockIsSumOfRequests(events, product, warehouses[1..]);
      CacheIsSumOfRequests(events, key);
      TotalSum(s.requests, NetAt(key), NetOverAt(product, warehouses[1..]), NetOverAt(product, warehouses));
    }
  }

  /** A transfer that is over, with both of its ends among these warehouses. */
  predicate SettledWithin(q: Request, warehouses: seq<nat>) {
    q.job.Transfer? && (q.phase.Done? || q.phase.Failed?) && q.job.source in warehouses && q.job.dest in warehouses
  }

  /** What a request did to the product over the warehouses, settled transfers among them aside. */
  function NetBesides(product: nat, warehouses: seq<nat>): Request -> real {
    (q: Request) => if SettledWithin(q, warehouses) then 0.0 else NetOver(q, product, warehouses)
  }

  /**
   Settled transfers, kept or unwound, drop out of a product's stock on hand: over any warehouses that
   hold both their ends it is what the other requests did, whatever ran in between.
   */
  lemma TransfersConserve(events: seq<Event>, product: nat, warehouses: seq<nat>)
    requires Distinct(warehouses)
    ensures var s := Run(EmptySystem, events);
            StockOver(s.levels, product, warehouses) == Total(s.requests, NetBesides(product, warehouses))
  {
    var s := Run(EmptySystem, events);
    RunKeepsInv(events);
    StockIsSumOfRequests(events, product, warehouses);
    forall r | 0 <= r < |s.requests|
      ensures NetOverAt(product, warehouses)(s.requests[r]) == NetBesides(product, warehouses)(s.requests[r])
    {
      if SettledWithin(s.requests[r], warehouses) {
        assert InvRequest(s, r);
        TransferNet(s.requests[r], product, warehouses);
      }
    }
    TotalAlike(s.requests, NetOverAt(product, warehouses), NetBesides(product, warehouses));
  }
}
