/**
 The stock cache and the movement ledger of one tenant.

 `levels` is the cache, one on-hand quantity per (product, warehouse); `rows` is the ledger, in
 insertion order. Every method is one request served alone; the interleaving of several requests
 is the subject of module StockMachine, which reuses the single-document updates defined here.
 A database insert that may fail takes its outcome as a parameter.
 */
module Stock {
  import opened Options
  import opened Sums

  datatype Key = Key(product: nat, warehouse: nat)

  /** The identity a database gives a fresh row: the request that inserts it and the position. */
  datatype RowId = RowId(request: nat, line: nat)

  datatype Row = Row(id: RowId, key: Key, qty: real)

  datatype Posting = Posting(key: Key, qty: real)

  type Levels = map<Key, real>

  // ---- single-document updates of the cache --------------------------------------------------

  function OnHand(levels: Levels, key: Key): real {
    if key in levels then levels[key] else 0.0
  }

  /** The guard of the conditional increment. A missing document never satisfies the filter. */
  predicate Accepts(levels: Levels, key: Key, delta: real, allowNegative: bool) {
    delta >= 0.0 || allowNegative || (key in levels && levels[key] >= -delta)
  }

  function Claimed(levels: Levels, key: Key, delta: real): Levels {
    levels[key := OnHand(levels, key) + delta]
  }

  /** The compensating update does not insert a missing document. */
  function Released(levels: Levels, key: Key, delta: real): Levels {
    if key in levels then levels[key := levels[key] - delta] else levels
  }

  // ---- the ledger ----------------------------------------------------------------------------

  function QtyAt(key: Key): Row -> real {
    (row: Row) => if row.key == key then row.qty else 0.0
  }

  function LedgerSum(rows: seq<Row>, key: Key): real {
    Total(rows, QtyAt(key))
  }

  function FindRow(rows: seq<Row>, id: RowId): Option<Row> {
    if rows == [] then None
    else if rows[0].id == id then Some(rows[0])
    else FindRow(rows[1..], id)
  }

  function DeleteRow(rows: seq<Row>, id: RowId): seq<Row> {
    if rows == [] then []
    else if rows[0].id == id then rows[1..]
    else [rows[0]] + DeleteRow(rows[1..], id)
  }

  lemma {:induction false} LedgerSumDelete(rows: seq<Row>, id: RowId, key: Key)
    ensures LedgerSum(DeleteRow(rows, id), key)
         == LedgerSum(rows, key)
            - (match FindRow(rows, id) case None => 0.0 case Some(row) => QtyAt(key)(row))
  {
    if rows != [] && rows[0].id != id {
      LedgerSumDelete(rows[1..], id, key);
      assert DeleteRow(rows, id)[1..] == DeleteRow(rows[1..], id);
    }
  }

  lemma {:induction false} FindFirstAfter(before: seq<Row>, row: Row, after: seq<Row>)
    requires forall r :: r in before ==> r.id != row.id
    ensures FindRow(before + [row] + after, row.id) == Some(row)
    ensures DeleteRow(before + [row] + after, row.id) == before + after
  {
    var all := before + [row] + after;
    if before == [] {
      assert all[0] == row && all[1..] == after;
    } else {
      assert all[0] == before[0] && all[1..] == before[1..] + [row] + after;
      FindFirstAfter(before[1..], row, after);
    }
  }

  /** The tolerance `reconcile` allows between the two. */
  predicate Close(actual: real, cached: real) {
    -0.000000001 <= actual - cached <= 0.000000001
  }

  // ---- postings in bulk ----------------------------------------------------------------------

  function PostedAt(key: Key): Posting -> real {
    (p: Posting) => if p.key == key then p.qty else 0.0
  }

  function RowsOf(request: nat, first: nat, postings: seq<Posting>): seq<Row> {
    seq(|postings|, i requires 0 <= i < |postings| =>
      Row(RowId(request, first + i), postings[i].key, postings[i].qty))
  }

  /** `after` differs from `before` by exactly the given postings. */
  ghost predicate Moved(before: Levels, after: Levels, postings: seq<Posting>) {
    forall key :: OnHand(after, key) == OnHand(before, key) + Total(postings, PostedAt(key))
  }

  ghost predicate SameStock(before: Levels, after: Levels) {
    forall key :: OnHand(after, key) == OnHand(before, key)
  }

  predicate AllAccepted(levels: Levels, postings: seq<Posting>, allowNegative: bool)
    decreases postings
  {
    postings == [] ||
    (Accepts(levels, postings[0].key, postings[0].qty, allowNegative) &&
     AllAccepted(Claimed(levels, postings[0].key, postings[0].qty), postings[1..], allowNegative))
  }

  function ClaimedAll(levels: Levels, postings: seq<Posting>): Levels
    decreases postings
  {
    if postings == [] then levels
    else ClaimedAll(Claimed(levels, postings[0].key, postings[0].qty), postings[1..])
  }

  lemma {:induction false} ClaimedAllMoves(levels: Levels, postings: seq<Posting>)
    ensures Moved(levels, ClaimedAll(levels, postings), postings)
    decreases postings
  {
    if postings != [] {
      var next := Claimed(levels, postings[0].key, postings[0].qty);
      ClaimedAllMoves(next, postings[1..]);
      forall key
        ensures OnHand(ClaimedAll(levels, postings), key)
             == OnHand(levels, key) + Total(postings, PostedAt(key))
      {
        assert OnHand(next, key) == OnHand(levels, key) + PostedAt(key)(postings[0]);
      }
    }
  }

  lemma {:induction false} ClaimedAllCovers(levels: Levels, postings: seq<Posting>)
    ensures levels.Keys <= ClaimedAll(levels, postings).Keys
    ensures forall p :: p in postings ==> p.key in ClaimedAll(levels, postings)
    decreases postings
  {
    if postings != [] {
      ClaimedAllCovers(Claimed(levels, postings[0].key, postings[0].qty), postings[1..]);
    }
  }

  /** With negative stock off, issues never create a level document. */
  lemma {:induction false} IssuesKeepKeys(levels: Levels, postings: seq<Posting>)
    requires AllAccepted(levels, postings, false) && forall p :: p in postings ==> p.qty < 0.0
    ensures ClaimedAll(levels, postings).Keys == levels.Keys
    decreases postings
  {
    if postings != [] {
      assert postings[0] in postings;
      IssuesKeepKeys(Claimed(levels, postings[0].key, postings[0].qty), postings[1..]);
    }
  }

  lemma {:induction false} ClaimedAllSnoc(levels: Levels, postings: seq<Posting>, p: Posting)
    ensures ClaimedAll(levels, postings + [p]) == Claimed(ClaimedAll(levels, postings), p.key, p.qty)
    decreases postings
  {
    var all := postings + [p];
    if postings == [] {
      assert all[1..] == [];
    } else {
      assert all[0] == postings[0] && all[1..] == postings[1..] + [p];
      ClaimedAllSnoc(Claimed(levels, postings[0].key, postings[0].qty), postings[1..], p);
    }
  }

  lemma {:induction false} AllAcceptedSnoc(
    levels: Levels, postings: seq<Posting>, p: Posting, allowNegative: bool)
    ensures AllAccepted(levels, postings + [p], allowNegative)
       <==> AllAccepted(levels, postings, allowNegative) &&
            Accepts(ClaimedAll(levels, postings), p.key, p.qty, allowNegative)
    decreases postings
  {
    var all := postings + [p];
    if postings == [] {
      assert all[0] == p && all[1..] == [];
    } else {
      assert all[0] == postings[0] && all[1..] == postings[1..] + [p];
      AllAcceptedSnoc(
        Claimed(levels, postings[0].key, postings[0].qty), postings[1..], p, allowNegative);
    }
  }

  lemma {:induction false} AllAcceptedPrefix(
    levels: Levels, postings: seq<Posting>, n: nat, allowNegative: bool)
    requires n <= |postings| && AllAccepted(levels, postings, allowNegative)
    ensures AllAccepted(levels, postings[..n], allowNegative)
    decreases postings
  {
    if n > 0 {
      AllAcceptedPrefix(
        Claimed(levels, postings[0].key, postings[0].qty), postings[1..], n - 1, allowNegative);
      assert postings[..n][1..] == postings[1..][..n - 1];
    }
  }

  lemma RowsSnoc(request: nat, postings: seq<Posting>, i: nat)
    requires i < |postings|
    ensures RowsOf(request, 0, postings[..i + 1])
         == RowsOf(request, 0, postings[..i]) + [Row(RowId(request, i), postings[i].key, postings[i].qty)]
  {
  }

  /** One more posting of a batch: what is accepted and claimed, and when the batch has failed. */
  lemma {:induction false} BatchStep(levels: Levels, postings: seq<Posting>, i: nat, allow: bool)
    requires i < |postings| && AllAccepted(levels, postings[..i], allow)
    ensures var here := ClaimedAll(levels, postings[..i]);
            && ClaimedAll(levels, postings[..i + 1]) == Claimed(here, postings[i].key, postings[i].qty)
            && (Accepts(here, postings[i].key, postings[i].qty, allow) <==>
                AllAccepted(levels, postings[..i + 1], allow))
            && (AllAccepted(levels, postings, allow) ==> AllAccepted(levels, postings[..i + 1], allow))
  {
    assert postings[..i + 1] == postings[..i] + [postings[i]];
    AllAcceptedSnoc(levels, postings[..i], postings[i], allow);
    ClaimedAllSnoc(levels, postings[..i], postings[i]);
    if AllAccepted(levels, postings, allow) {
      AllAcceptedPrefix(levels, postings, i + 1, allow);
    }
  }

  lemma {:induction false} IssuesOnlyLower(postings: seq<Posting>, key: Key)
    requires forall p :: p in postings ==> p.qty < 0.0
    ensures Total(postings, PostedAt(key)) <= 0.0
    ensures (exists p :: p in postings && p.key == key) ==> Total(postings, PostedAt(key)) < 0.0
  {
    if postings != [] {
      IssuesOnlyLower(postings[1..], key);
    }
  }

  /**
   With negative stock off, a batch of issues is accepted one by one exactly when, for every
   key it draws on, the summed quantity fits what is on hand, however often the key repeats.
   */
  lemma {:induction false} IssuesFitWhenTheirSumsDo(levels: Levels, postings: seq<Posting>)
    requires forall p :: p in postings ==> p.qty < 0.0
    ensures AllAccepted(levels, postings, false)
       <==> forall p :: p in postings ==>
              OnHand(levels, p.key) + Total(postings, PostedAt(p.key)) >= 0.0
    decreases postings
  {
    if postings != [] {
      var head, rest := postings[0], postings[1..];
      var next := Claimed(levels, head.key, head.qty);
      assert forall p :: p in postings <==> p == head || p in rest;
      IssuesFitWhenTheirSumsDo(next, rest);
      forall key
        ensures OnHand(next, key) + Total(rest, PostedAt(key))
             == OnHand(levels, key) + Total(postings, PostedAt(key))
      {
        assert OnHand(next, key) == OnHand(levels, key) + PostedAt(key)(head);
      }
      IssuesOnlyLower(rest, head.key);
      if !(exists p :: p in rest && p.key == head.key) {
        TotalZero(rest, PostedAt(head.key));
      }
    }
  }

  // ---- transfers conserve a product's total --------------------------------------------------

  /** The product's stock over a list of warehouses. */
  function StockOver(levels: Levels, product: nat, warehouses: seq<nat>): real {
    if warehouses == [] then 0.0
    else OnHand(levels, Key(product, warehouses[0])) + StockOver(levels, product, warehouses[1..])
  }

  ghost predicate Distinct(warehouses: seq<nat>) {
    forall i, j :: 0 <= i < j < |warehouses| ==> warehouses[i] != warehouses[j]
  }

  lemma {:induction false} StockOverClaimed(
    levels: Levels, product: nat, warehouse: nat, qty: real, warehouses: seq<nat>)
    requires Distinct(warehouses)
    ensures StockOver(Claimed(levels, Key(product, warehouse), qty), product, warehouses)
         == StockOver(levels, product, warehouses) + (if warehouse in warehouses then qty else 0.0)
  {
    if warehouses != [] {
      StockOverClaimed(levels, product, warehouse, qty, warehouses[1..]);
    }
  }

  lemma {:induction false} StockOverSame(
    before: Levels, after: Levels, product: nat, warehouses: seq<nat>)
    requires SameStock(before, after)
    ensures StockOver(after, product, warehouses) == StockOver(before, product, warehouses)
  {
    if warehouses != [] {
      StockOverSame(before, after, product, warehouses[1..]);
    }
  }

  // ---- the service, one request at a time ----------------------------------------------------

  datatype MovementType = Receipt | Issue | Adjustment

  datatype Outcome =
    | Posted(posted: seq<Row>)
    | Insufficient(onHand: real)
    | WriteFailed
    | Invalid
    | NotFound

  function SignedQty(mtype: MovementType, qty: real): real {
    var magnitude := if qty < 0.0 then -qty else qty;
    match mtype
    case Receipt => magnitude
    case Issue => -magnitude
    case Adjustment => qty
  }

  /** One quantity on hand is changed by the amount, and no other. */
  ghost predicate Shifted(before: Levels, after: Levels, key: Key, amount: real) {
    && OnHand(after, key) == OnHand(before, key) + amount
    && forall other :: other != key ==> OnHand(after, other) == OnHand(before, other)
  }

  /** What the request must look like before anything is claimed. */
  predicate Movable(mtype: MovementType, qty: real, hasNote: bool) {
    && (mtype.Adjustment? ==> hasNote)
    && qty != 0.0
    && (!mtype.Adjustment? ==> qty > 0.0)
  }

  function IssuePostings(warehouse: nat, lines: seq<(nat, real)>): (postings: seq<Posting>)
    ensures |postings| == |lines|
    ensures forall i :: 0 <= i < |lines| ==> postings[i] == Posting(Key(lines[i].0, warehouse), -lines[i].1)
  {
    seq(|lines|, i requires 0 <= i < |lines| => Posting(Key(lines[i].0, warehouse), -lines[i].1))
  }

  /** How much of a product some lines ask for. */
  function DemandFor(product: nat): ((nat, real)) -> real {
    (item: (nat, real)) => if item.0 == product then item.1 else 0.0
  }

  lemma {:induction false} DemandIsPosted(items: seq<(nat, real)>, key: Key, warehouse: nat)
    ensures Total(IssuePostings(warehouse, items), PostedAt(key))
         == if key.warehouse == warehouse then -Total(items, DemandFor(key.product)) else 0.0
  {
    if items != [] {
      DemandIsPosted(items[1..], key, warehouse);
      assert IssuePostings(warehouse, items)[1..] == IssuePostings(warehouse, items[1..]);
    }
  }

  class Inventory {
    var levels: Levels
    var rows: seq<Row>
    var products: set<nat>
    /** Live warehouses, in the order of their codes. */
    var warehouses: seq<nat>
    var allowNegative: bool

    /** No row was inserted by this request yet: row identities are never reused. */
    ghost predicate Unused(request: nat)
      reads this
    {
      forall row :: row in rows ==> row.id.request != request
    }

    constructor ()
      ensures levels == map[] && rows == [] && products == {} && warehouses == [] && !allowNegative
    {
      levels, rows, products, warehouses, allowNegative := map[], [], {}, [], false;
    }

    method ClaimStock(key: Key, delta: real, allow: bool) returns (ok: bool)
      modifies this`levels
      ensures ok == Accepts(old(levels), key, delta, allow)
      ensures levels == if ok then Claimed(old(levels), key, delta) else old(levels)
    {
      if delta >= 0.0 || allow {
        levels := levels[key := OnHand(levels, key) + delta];
        return true;
      }
      if key in levels && levels[key] >= -delta {
        levels := levels[key := levels[key] + delta];
        return true;
      }
      return false;
    }

    method ReleaseStock(key: Key, delta: real)
      modifies this`levels
      ensures levels == Released(old(levels), key, delta)
    {
      if key in levels {
        levels := levels[key := levels[key] - delta];
      }
    }

    /** Claim, then write the ledger row; undo the claim when the write fails. */
    method PostMovement(id: RowId, key: Key, signed: real, allow: bool, insertFails: bool)
      returns (outcome: Outcome)
      modifies this`levels, this`rows
      ensures outcome.Posted? <==> Accepts(old(levels), key, signed, allow) && !insertFails
      ensures outcome.Posted? ==>
        && outcome.posted == [Row(id, key, signed)]
        && rows == old(rows) + outcome.posted
        && levels == Claimed(old(levels), key, signed)
      ensures !outcome.Posted? ==>
        && rows == old(rows)
        && SameStock(old(levels), levels)
        && (signed < 0.0 && !allow ==> levels == old(levels))
      ensures outcome.Insufficient? ==> outcome.onHand == OnHand(old(levels), key) < -signed
      ensures outcome.Insufficient? <==> !Accepts(old(levels), key, signed, allow)
      ensures outcome.WriteFailed? <==> Accepts(old(levels), key, signed, allow) && insertFails
      ensures old(levels).Keys <= levels.Keys
    {
      var claimed := ClaimStock(key, signed, allow);
      if !claimed {
        outcome := Insufficient(OnHand(levels, key));
        // a missing document holds nothing, and a negative delta always asks for something
        assert key !in levels ==> OnHand(levels, key) == 0.0;
      } else if insertFails {
        ReleaseStock(key, signed);
        outcome := WriteFailed;
        assert signed < 0.0 && !allow ==> levels == old(levels);
      } else {
        rows := rows + [Row(id, key, signed)];
        outcome := Posted([Row(id, key, signed)]);
      }
    }

    method CreateMovement(
      id: RowId, product: nat, warehouse: nat, mtype: MovementType, qty: real, hasNote: bool,
      insertFails: bool) returns (outcome: Outcome)
      modifies this`levels, this`rows
      ensures outcome.Posted? <==>
        && Movable(mtype, qty, hasNote) && product in products && warehouse in warehouses
        && Accepts(old(levels), Key(product, warehouse), SignedQty(mtype, qty), allowNegative)
        && !insertFails
      ensures outcome.Posted? ==>
        && rows == old(rows) + [Row(id, Key(product, warehouse), if mtype == Issue then -qty else qty)]
        && Shifted(old(levels), levels, Key(product, warehouse), if mtype == Issue then -qty else qty)
      ensures mtype == Receipt && qty > 0.0 && product in products && warehouse in warehouses && !insertFails ==>
        outcome.Posted?
      ensures mtype == Issue && qty > 0.0 && product in products && warehouse in warehouses && !insertFails ==>
        (outcome.Posted? <==> allowNegative || qty <= OnHand(old(levels), Key(product, warehouse)))
      ensures mtype == Adjustment && qty != 0.0 && product in products && warehouse in warehouses && !insertFails ==>
        (outcome.Posted? <==>
           hasNote && (qty > 0.0 || allowNegative || -qty <= OnHand(old(levels), Key(product, warehouse))))
      ensures outcome == Invalid <==> qty == 0.0 || (if mtype == Adjustment then !hasNote else qty < 0.0)
      ensures outcome == NotFound <==> outcome != Invalid && (product !in products || warehouse !in warehouses)
      ensures outcome.Posted? ==>
        && outcome.posted == [Row(id, Key(product, warehouse), SignedQty(mtype, qty))]
        && rows == old(rows) + outcome.posted
        && levels == Claimed(old(levels), Key(product, warehouse), SignedQty(mtype, qty))
      ensures !outcome.Posted? ==>
        && rows == old(rows) && SameStock(old(levels), levels)
        && (SignedQty(mtype, qty) <= 0.0 && !allowNegative ==> levels == old(levels))
      ensures old(levels).Keys <= levels.Keys
    {
      if mtype.Adjustment? && !hasNote {
        return Invalid;
      }
      if qty == 0.0 {
        return Invalid;
      }
      if (mtype.Receipt? || mtype.Issue?) && qty < 0.0 {
        return Invalid;
      }
      if product !in products || warehouse !in warehouses {
        return NotFound;
      }
      outcome := PostMovement(
        id, Key(product, warehouse), SignedQty(mtype, qty), allowNegative, insertFails);
    }

    /** A paired issue and receipt: both rows or none, and the product's total never changes. */
    method CreateTransfer(
      request: nat, product: nat, source: nat, dest: nat, qty: real,
      firstInsertFails: bool, secondInsertFails: bool) returns (outcome: Outcome)
      requires qty > 0.0 && Unused(request)
      modifies this`levels, this`rows
      ensures outcome.Posted? <==>
        && source != dest && product in products && source in warehouses && dest in warehouses
        && Accepts(old(levels), Key(product, source), -qty, allowNegative)
        && !firstInsertFails && !secondInsertFails
      ensures outcome.Posted? ==>
        && outcome.posted == [Row(RowId(request, 0), Key(product, source), -qty),
                              Row(RowId(request, 1), Key(product, dest), qty)]
        && rows == old(rows) + outcome.posted
        && levels == Claimed(Claimed(old(levels), Key(product, source), -qty), Key(product, dest), qty)
      ensures !outcome.Posted? ==> rows == old(rows) && SameStock(old(levels), levels)
      ensures forall among :: Distinct(among) && source in among && dest in among ==>
        StockOver(levels, product, among) == StockOver(old(levels), product, among)
    {
      if source == dest {
        return Invalid;
      }
      if product !in products || source !in warehouses || dest !in warehouses {
        return NotFound;
      }
      ghost var before := levels;
      var outId := RowId(request, 0);
      outcome := PostMovement(outId, Key(product, source), -qty, allowNegative, firstInsertFails);
      if outcome.Posted? {
        var out := outcome.posted[0];
        var second := PostMovement(
          RowId(request, 1), Key(product, dest), qty, allowNegative, secondInsertFails);
        if second.Posted? {
          outcome := Posted([out] + second.posted);
          forall among | Distinct(among) && source in among && dest in among
            ensures StockOver(levels, product, among) == StockOver(before, product, among)
          {
            StockOverClaimed(before, product, source, -qty, among);
            StockOverClaimed(
              Claimed(before, Key(product, source), -qty), product, dest, qty, among);
          }
        } else {
          FindFirstAfter(old(rows), out, []);
          assert old(rows) + [out] + [] == rows;
          rows := DeleteRow(rows, outId);
          ghost var mid := levels;
          ReleaseStock(Key(product, source), -qty);
          outcome := second;
          assert SameStock(Claimed(before, Key(product, source), -qty), mid);
          forall key
            ensures OnHand(levels, key) == OnHand(before, key)
          {
            assert OnHand(mid, key) == OnHand(Claimed(before, Key(product, source), -qty), key);
          }
        }
      }
      if !outcome.Posted? {
        forall among | Distinct(among) && source in among && dest in among
          ensures StockOver(levels, product, among) == StockOver(before, product, among)
        {
          StockOverSame(before, levels, product, among);
        }
      }
    }

    /** Compensate one posted issue; a row that is already gone needs nothing. */
    method ReverseIssue(id: RowId)
      modifies this`levels, this`rows
      ensures match FindRow(old(rows), id)
        case None => levels == old(levels) && rows == old(rows)
        case Some(row) => levels == Released(old(levels), row.key, row.qty)
                          && rows == DeleteRow(old(rows), id)
    {
      var found := FindRow(rows, id);
      if found.Some? {
        ReleaseStock(found.value.key, found.value.qty);
        rows := DeleteRow(rows, id);
      }
    }

    /** The first `n` lines name live records, ask for something, and their rows can be written. */
    predicate Serviceable(warehouse: nat, lines: seq<(nat, real)>, n: nat, insertFails: nat -> bool)
      requires n <= |lines|
      reads this`products, this`warehouses
    {
      forall i :: 0 <= i < n ==>
        lines[i].1 > 0.0 && lines[i].0 in products && warehouse in warehouses && !insertFails(i)
    }

    /** Post line after line until one fails; what is posted so far stays. */
    method IssueLines(
      request: nat, warehouse: nat, lines: seq<(nat, real)>, insertFails: nat -> bool)
      returns (posted: seq<Row>, outcome: Outcome)
      modifies this`levels, this`rows
      ensures |posted| <= |lines|
      ensures outcome.Posted? <==>
        && Serviceable(warehouse, lines, |lines|, insertFails)
        && AllAccepted(old(levels), IssuePostings(warehouse, lines), allowNegative)
      ensures outcome.Posted? ==> |posted| == |lines|
      ensures var done := IssuePostings(warehouse, lines)[..|posted|];
        && posted == RowsOf(request, 0, done) && rows == old(rows) + posted
        && SameStock(ClaimedAll(old(levels), done), levels)
        && (outcome.Posted? ==> levels == ClaimedAll(old(levels), done))
        && (forall j :: 0 <= j < |done| ==> done[j].key in levels)
      ensures !allowNegative ==> levels.Keys == old(levels).Keys
    {
      ghost var postings := IssuePostings(warehouse, lines);
      posted := [];
      outcome := Posted([]);
      for i := 0 to |lines|
        invariant |posted| == i && outcome.Posted?
        invariant Serviceable(warehouse, lines, i, insertFails)
        invariant posted == RowsOf(request, 0, postings[..i]) && rows == old(rows) + posted
        invariant levels == ClaimedAll(old(levels), postings[..i])
        invariant AllAccepted(old(levels), postings[..i], allowNegative)
        invariant forall j :: 0 <= j < i ==> postings[j].key in levels
        invariant !allowNegative ==> levels.Keys == old(levels).Keys
      {
        BatchStep(old(levels), postings, i, allowNegative);
        outcome := CreateMovement(
          RowId(request, i), lines[i].0, warehouse, Issue, lines[i].1, true, insertFails(i));
        if !outcome.Posted? {
          return;
        }
        RowsSnoc(request, postings, i);
        posted := posted + outcome.posted;
      }
      assert postings[..|lines|] == postings;
    }

    /** Issue every line of a document, or nothing at all. */
    method IssueStockFor(
      request: nat, warehouse: nat, lines: seq<(nat, real)>, insertFails: nat -> bool)
      returns (outcome: Outcome)
      requires Unused(request)
      modifies this`levels, this`rows
      ensures outcome.Posted? <==>
        && Serviceable(warehouse, lines, |lines|, insertFails)
        && AllAccepted(old(levels), IssuePostings(warehouse, lines), allowNegative)
      ensures outcome.Posted? ==>
        && outcome.posted == RowsOf(request, 0, IssuePostings(warehouse, lines))
        && rows == old(rows) + outcome.posted
        && levels == ClaimedAll(old(levels), IssuePostings(warehouse, lines))
      ensures !outcome.Posted? ==>
        && rows == old(rows) && SameStock(old(levels), levels)
        && (!allowNegative ==> levels == old(levels))
    {
      ghost var postings := IssuePostings(warehouse, lines);
      var posted;
      posted, outcome := IssueLines(request, warehouse, lines, insertFails);
      if outcome.Posted? {
        assert postings[..|posted|] == postings;
        outcome := Posted(posted);
      } else {
        Abandon(posted, old(levels), old(rows), request, postings[..|posted|]);
      }
    }

    /** Give up after the lines posted so far. */
    method Abandon(
      posted: seq<Row>, ghost before: Levels, ghost base: seq<Row>, ghost request: nat,
      ghost postings: seq<Posting>)
      requires forall row :: row in base ==> row.id.request != request
      requires posted == RowsOf(request, 0, postings) && rows == base + posted
      requires SameStock(ClaimedAll(before, postings), levels)
      requires forall j :: 0 <= j < |postings| ==> postings[j].key in levels
      modifies this`levels, this`rows
      ensures rows == base && SameStock(before, levels)
      ensures old(levels).Keys == before.Keys ==> levels == before
    {
      ClaimedAllMoves(before, postings);
      UnwindIssues(posted, before, base, request, postings);
    }

    /** Reverse the issues of a request that failed part-way, oldest first. */
    method UnwindIssues(
      posted: seq<Row>, ghost before: Levels, ghost base: seq<Row>, ghost request: nat,
      ghost postings: seq<Posting>)
      requires forall row :: row in base ==> row.id.request != request
      requires posted == RowsOf(request, 0, postings) && rows == base + posted
      requires Moved(before, levels, postings)
      requires forall p :: p in postings ==> p.key in levels
      modifies this`levels, this`rows
      ensures rows == base && SameStock(before, levels)
      ensures old(levels).Keys == before.Keys ==> levels == before
    {
      var j := 0;
      while j < |posted|
        invariant 0 <= j <= |posted|
        invariant rows == base + RowsOf(request, j, postings[j..])
        invariant Moved(before, levels, postings[j..])
        invariant levels.Keys == old(levels).Keys
      {
        ghost var here, rest := levels, RowsOf(request, j + 1, postings[j + 1..]);
        assert rows == base + [posted[j]] + rest;
        FindFirstAfter(base, posted[j], rest);
        assert postings[j] in postings;
        ReverseIssue(posted[j].id);
        assert postings[j..][0] == postings[j] && postings[j..][1..] == postings[j + 1..];
        forall key
          ensures OnHand(levels, key) == OnHand(before, key) + Total(postings[j + 1..], PostedAt(key))
        {
          assert OnHand(levels, key) == OnHand(here, key) - PostedAt(key)(postings[j]);
        }
        j := j + 1;
      }
      assert levels.Keys == before.Keys ==>
        forall key :: key in levels ==> OnHand(levels, key) == OnHand(before, key);
    }

    /** Report every cached quantity the ledger disagrees with. */
    method Reconcile() returns (checked: nat, drift: set<Key>, consistent: bool)
      ensures checked == |levels|
      ensures forall key :: key in drift <==>
        && key in levels
        && (LedgerSum(rows, key) - levels[key] > 0.000000001 || levels[key] - LedgerSum(rows, key) > 0.000000001)
      ensures consistent <==> forall key :: key in levels ==> Close(LedgerSum(rows, key), levels[key])
    {
      checked, drift := 0, {};
      var todo := levels.Keys;
      while todo != {}
        invariant todo <= levels.Keys
        invariant checked == |levels.Keys| - |todo|
        invariant forall key :: key in drift <==>
          key in levels.Keys - todo && !Close(LedgerSum(rows, key), levels[key])
        decreases |todo|
      {
        var key :| key in todo;
        todo := todo - {key};
        checked := checked + 1;
        if !Close(LedgerSum(rows, key), levels[key]) {
          drift := drift + {key};
        }
      }
      consistent := drift == {};
    }
  }
}
