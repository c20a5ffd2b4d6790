/**
 Stage definitions, the concurrent shape derived from the sequential one, and the checks that
 admit an approval.
 */
module StageGraph {
  import opened Options

  datatype GateKind = DocumentGate | DependencyGate | OtherGate

  datatype Gate = Gate(key: string, kind: GateKind, dependsOn: string, blocking: bool)

  datatype Shape = Sequential | Concurrent

  datatype Stage = Stage(
    key: string, order: int, shape: Shape, entryGates: seq<Gate>, qualityGates: seq<string>,
    checklist: seq<string>)

  // ---- deriving the concurrent shape ---------------------------------------------------------------

  /** Keep the list sorted by order; of two stages with one order the later wins. */
  function Insert(sorted: seq<Stage>, d: Stage): seq<Stage> {
    if sorted == [] || d.order < sorted[0].order then [d] + sorted
    else if d.order == sorted[0].order then [d] + sorted[1..]
    else [sorted[0]] + Insert(sorted[1..], d)
  }

  function ByOrder(defs: seq<Stage>): seq<Stage> {
    if defs == [] then [] else Insert(ByOrder(defs[..|defs| - 1]), defs[|defs| - 1])
  }

  ghost predicate StrictlyOrdered(stages: seq<Stage>) {
    forall i, j :: 0 <= i < j < |stages| ==> stages[i].order < stages[j].order
  }

  function WithoutDependencies(gates: seq<Gate>): seq<Gate> {
    if gates == [] then []
    else (if gates[0].kind.DependencyGate? then [] else [gates[0]]) + WithoutDependencies(gates[1..])
  }

  function Started(key: string): Gate { Gate(key + "_started", DependencyGate, key, true) }

  function Finished(key: string): Gate { Gate(key + "_done", DependencyGate, key, true) }

  /** One completion gate per stage strictly between the first and the last. */
  function MiddleGates(stages: seq<Stage>, n: nat): seq<Gate>
    requires n <= |stages|
  {
    if n <= 1 then [] else MiddleGates(stages, n - 1) + [Finished(stages[n - 1].key)]
  }

  function NewDependencies(stages: seq<Stage>, i: nat): seq<Gate>
    requires i < |stages|
  {
    if i == |stages| - 1 then MiddleGates(stages, i)
    else if i != 0 then [Started(stages[0].key)]
    else []
  }

  function Rewired(stages: seq<Stage>, i: nat): Stage
    requires i < |stages|
  {
    stages[i].(shape := Concurrent,
               entryGates := WithoutDependencies(stages[i].entryGates) + NewDependencies(stages, i))
  }

  function ConcurrentVariant(defs: seq<Stage>): seq<Stage> {
    var stages := ByOrder(defs);
    seq(|stages|, i requires 0 <= i < |stages| => Rewired(stages, i))
  }

  method SortByOrder(defs: seq<Stage>) returns (stages: seq<Stage>)
    ensures stages == ByOrder(defs)
  {
    stages := [];
    for i := 0 to |defs|
      invariant stages == ByOrder(defs[..i])
    {
      assert defs[..i + 1][..i] == defs[..i];
      stages := Insert(stages, defs[i]);
    }
    assert defs[..|defs|] == defs;
  }

  method KeepOtherGates(entryGates: seq<Gate>) returns (gates: seq<Gate>)
    ensures gates == WithoutDependencies(entryGates)
  {
    gates := [];
    for g := 0 to |entryGates|
      invariant gates == WithoutDependencies(entryGates[..g])
    {
      WithoutAppend(entryGates[..g], [entryGates[g]]);
      WithoutCons(entryGates[g], []);
      assert entryGates[..g + 1] == entryGates[..g] + [entryGates[g]];
      if !entryGates[g].kind.DependencyGate? {
        gates := gates + [entryGates[g]];
      }
    }
    assert entryGates[..|entryGates|] == entryGates;
  }

  method CollectMiddle(stages: seq<Stage>, n: nat) returns (gates: seq<Gate>)
    requires n <= |stages|
    ensures gates == MiddleGates(stages, n)
  {
    gates := [];
    if n <= 1 {
      return;
    }
    for m := 1 to n
      invariant gates == MiddleGates(stages, m)
    {
      gates := gates + [Finished(stages[m].key)];
    }
  }

  method Rewire(stages: seq<Stage>, o: nat) returns (d: Stage)
    requires o < |stages|
    ensures d == Rewired(stages, o)
  {
    var gates := KeepOtherGates(stages[o].entryGates);
    if o == |stages| - 1 {
      var middle := CollectMiddle(stages, o);
      gates := gates + middle;
    } else if o != 0 {
      gates := gates + [Started(stages[0].key)];
    }
    d := stages[o].(shape := Concurrent, entryGates := gates);
  }

  method DeriveConcurrent(defs: seq<Stage>) returns (out: seq<Stage>)
    requires defs != []
    ensures out == ConcurrentVariant(defs)
  {
    var stages := SortByOrder(defs);
    out := [];
    for o := 0 to |stages|
      invariant |out| == o && forall i :: 0 <= i < o ==> out[i] == Rewired(stages, i)
    {
      var d := Rewire(stages, o);
      out := out + [d];
    }
  }

  lemma WithoutCons(gate: Gate, rest: seq<Gate>)
    ensures WithoutDependencies([gate] + rest)
         == (if gate.kind.DependencyGate? then [] else [gate]) + WithoutDependencies(rest)
  {
    assert ([gate] + rest)[1..] == rest;
  }

  lemma GatesAssociate(a: seq<Gate>, b: seq<Gate>, c: seq<Gate>)
    ensures (a + b) + c == a + (b + c)
  {
  }

  lemma {:induction false} WithoutAppend(a: seq<Gate>, b: seq<Gate>)
    ensures WithoutDependencies(a + b) == WithoutDependencies(a) + WithoutDependencies(b)
  {
    if a == [] {
      assert a + b == b;
    } else {
      WithoutAppend(a[1..], b);
      var head := if a[0].kind.DependencyGate? then [] else [a[0]];
      assert WithoutDependencies(a + b) == head + WithoutDependencies(a[1..] + b) by {
        assert (a + b)[0] == a[0] && (a + b)[1..] == a[1..] + b;
      }
      assert WithoutDependencies(a) == head + WithoutDependencies(a[1..]);
      GatesAssociate(head, WithoutDependencies(a[1..]), WithoutDependencies(b));
    }
  }

  lemma {:induction false} InsertOrders(sorted: seq<Stage>, d: Stage)
    requires StrictlyOrdered(sorted)
    ensures StrictlyOrdered(Insert(sorted, d))
    ensures forall i :: 0 <= i < |Insert(sorted, d)| ==>
      Insert(sorted, d)[i] == d || Insert(sorted, d)[i] in sorted
    ensures d in Insert(sorted, d)
  {
    if sorted != [] && d.order > sorted[0].order {
      InsertOrders(sorted[1..], d);
      var rest := Insert(sorted[1..], d);
      forall i | 0 <= i < |rest|
        ensures sorted[0].order < rest[i].order
      {
        if rest[i] != d {
          var j :| 0 <= j < |sorted| - 1 && sorted[1..][j] == rest[i];
          assert sorted[j + 1] == rest[i];
        }
      }
    }
  }

  lemma {:induction false} ByOrderIsOrdered(defs: seq<Stage>)
    ensures StrictlyOrdered(ByOrder(defs))
    ensures forall i :: 0 <= i < |ByOrder(defs)| ==> ByOrder(defs)[i] in defs
  {
    if defs != [] {
      var n := |defs| - 1;
      ByOrderIsOrdered(defs[..n]);
      InsertOrders(ByOrder(defs[..n]), defs[n]);
    }
  }

  lemma {:induction false} InsertLast(sorted: seq<Stage>, d: Stage)
    requires forall i :: 0 <= i < |sorted| ==> sorted[i].order < d.order
    ensures Insert(sorted, d) == sorted + [d]
  {
    if sorted != [] {
      assert forall i :: 0 <= i < |sorted| - 1 ==> sorted[1..][i] == sorted[i + 1];
      InsertLast(sorted[1..], d);
    }
  }

  lemma {:induction false} OrderedStays(stages: seq<Stage>)
    requires StrictlyOrdered(stages)
    ensures ByOrder(stages) == stages
  {
    if stages != [] {
      var n := |stages| - 1;
      OrderedStays(stages[..n]);
      InsertLast(stages[..n], stages[n]);
    }
  }

  lemma {:induction false} WithoutTwice(gates: seq<Gate>)
    ensures WithoutDependencies(WithoutDependencies(gates)) == WithoutDependencies(gates)
  {
    if gates != [] {
      WithoutTwice(gates[1..]);
      var first: seq<Gate> := if gates[0].kind.DependencyGate? then [] else [gates[0]];
      WithoutAppend(first, WithoutDependencies(gates[1..]));
    }
  }

  lemma WithoutIsStable(gates: seq<Gate>, deps: seq<Gate>)
    requires forall i :: 0 <= i < |deps| ==> deps[i].kind.DependencyGate?
    ensures WithoutDependencies(WithoutDependencies(gates) + deps) == WithoutDependencies(gates)
  {
    WithoutAppend(WithoutDependencies(gates), deps);
    WithoutTwice(gates);
    OnlyDependencies(deps);
  }

  lemma {:induction false} OnlyDependencies(deps: seq<Gate>)
    requires forall i :: 0 <= i < |deps| ==> deps[i].kind.DependencyGate?
    ensures WithoutDependencies(deps) == []
  {
    if deps != [] {
      OnlyDependencies(deps[1..]);
    }
  }

  lemma {:induction false} MiddleGatesAre(stages: seq<Stage>, n: nat)
    requires 1 <= n <= |stages|
    ensures |MiddleGates(stages, n)| == n - 1
    ensures forall g :: 0 <= g < n - 1 ==> MiddleGates(stages, n)[g] == Finished(stages[g + 1].key)
  {
    if n > 1 {
      MiddleGatesAre(stages, n - 1);
    }
  }

  lemma {:induction false} MiddleGatesSame(a: seq<Stage>, b: seq<Stage>, n: nat)
    requires |a| == |b| && n <= |a| && forall i :: 0 <= i < |a| ==> a[i].key == b[i].key
    ensures MiddleGates(a, n) == MiddleGates(b, n)
  {
    if n > 1 {
      MiddleGatesSame(a, b, n - 1);
    }
  }

  lemma NewDependenciesAre(stages: seq<Stage>, i: nat)
    requires i < |stages|
    ensures forall g :: 0 <= g < |NewDependencies(stages, i)| ==>
      NewDependencies(stages, i)[g].kind.DependencyGate?
    ensures forall g :: g in NewDependencies(stages, i) ==> exists j :: 0 <= j < i && g.dependsOn == stages[j].key
  {
    if i == |stages| - 1 && i > 0 {
      MiddleGatesAre(stages, i);
      forall g | g in MiddleGates(stages, i)
        ensures exists j :: 0 <= j < i && g.dependsOn == stages[j].key
      {
        var m :| 0 <= m < |MiddleGates(stages, i)| && MiddleGates(stages, i)[m] == g;
        assert g.dependsOn == stages[m + 1].key;
      }
    }
  }

  lemma {:induction false} KeptAreNotDependencies(gates: seq<Gate>)
    ensures forall g :: g in WithoutDependencies(gates) <==> g in gates && !g.kind.DependencyGate?
  {
    if gates != [] {
      KeptAreNotDependencies(gates[1..]);
    }
  }

  /** Every dependency of the derived graph points to a stage of strictly lower order. */
  lemma DependenciesPointDown(defs: seq<Stage>, i: nat, g: Gate)
    requires var out := ConcurrentVariant(defs);
             i < |out| && g in out[i].entryGates && g.kind.DependencyGate?
    ensures var out := ConcurrentVariant(defs);
            exists j :: 0 <= j < i && out[j].key == g.dependsOn && out[j].order < out[i].order
  {
    var stages, out := ByOrder(defs), ConcurrentVariant(defs);
    ByOrderIsOrdered(defs);
    KeptAreNotDependencies(stages[i].entryGates);
    NewDependenciesAre(stages, i);
    assert g in NewDependencies(stages, i);
    var j :| 0 <= j < i && g.dependsOn == stages[j].key;
    assert out[j].key == g.dependsOn;
  }

  lemma RewiredTwice(stages: seq<Stage>, out: seq<Stage>, i: nat)
    requires |out| == |stages| && i < |stages| && forall j :: 0 <= j < |stages| ==> out[j] == Rewired(stages, j)
    ensures Rewired(out, i) == out[i]
  {
    NewDependenciesAre(stages, i);
    WithoutIsStable(stages[i].entryGates, NewDependencies(stages, i));
    assert forall j :: 0 <= j < |stages| ==> out[j].key == stages[j].key;
    MiddleGatesSame(stages, out, i);
    assert NewDependencies(out, i) == NewDependencies(stages, i);
  }

  /** Deriving the concurrent shape a second time changes nothing. */
  lemma VariantIsIdempotent(defs: seq<Stage>)
    ensures ConcurrentVariant(ConcurrentVariant(defs)) == ConcurrentVariant(defs)
  {
    var stages, out := ByOrder(defs), ConcurrentVariant(defs);
    ByOrderIsOrdered(defs);
    OrderedStays(out);
    forall i | 0 <= i < |out|
      ensures Rewired(out, i) == out[i]
    {
      RewiredTwice(stages, out, i);
    }
  }

  /** Only dependencies, and the shape label, differ from the definitions it started from. */
  lemma VariantPreserves(defs: seq<Stage>, i: nat)
    requires StrictlyOrdered(defs) && i < |defs|
    ensures var out := ConcurrentVariant(defs);
            && |out| == |defs| && out[i].key == defs[i].key && out[i].order == defs[i].order
            && out[i].qualityGates == defs[i].qualityGates && out[i].checklist == defs[i].checklist
            && WithoutDependencies(out[i].entryGates) == WithoutDependencies(defs[i].entryGates)
  {
    OrderedStays(defs);
    NewDependenciesAre(defs, i);
    WithoutIsStable(defs[i].entryGates, NewDependencies(defs, i));
  }

  function KeysOf(stages: seq<Stage>): seq<string> {
    seq(|stages|, i requires 0 <= i < |stages| => stages[i].key)
  }

  /** In the concurrent shape a middle stage waits for the first to start, and the last for the middle ones. */
  predicate Wired(keys: seq<string>, i: nat, gate: Gate)
    requires i < |keys|
  {
    if i == |keys| - 1
    then exists m :: 1 <= m < i && gate == Gate(keys[m] + "_done", DependencyGate, keys[m], true)
    else i != 0 && gate == Gate(keys[0] + "_started", DependencyGate, keys[0], true)
  }

  lemma NewAreWired(stages: seq<Stage>, i: nat)
    requires i < |stages|
    ensures forall g :: g in NewDependencies(stages, i) <==> Wired(KeysOf(stages), i, g)
  {
    if i == |stages| - 1 && i > 0 {
      var keys, middle := KeysOf(stages), MiddleGates(stages, i);
      MiddleGatesAre(stages, i);
      forall g | Wired(keys, i, g)
        ensures g in middle
      {
        var m :| 1 <= m < i && g == Gate(keys[m] + "_done", DependencyGate, keys[m], true);
        assert middle[m - 1] == g;
      }
      forall g | g in middle
        ensures Wired(keys, i, g)
      {
        var m :| 0 <= m < |middle| && middle[m] == g;
        assert 1 <= m + 1 < i && g == Gate(keys[m + 1] + "_done", DependencyGate, keys[m + 1], true);
      }
    }
  }

  /** The last definition given for its order. */
  ghost predicate LastOfOrder(defs: seq<Stage>, d: Stage) {
    exists k :: 0 <= k < |defs| && defs[k] == d && forall l :: k < l < |defs| ==> defs[l].order != d.order
  }

  lemma {:induction false} InsertIs(sorted: seq<Stage>, d: Stage)
    requires StrictlyOrdered(sorted)
    ensures forall e :: e in Insert(sorted, d) <==> e == d || (e in sorted && e.order != d.order)
  {
    if sorted != [] && d.order > sorted[0].order {
      InsertIs(sorted[1..], d);
      assert sorted == [sorted[0]] + sorted[1..];
    } else if sorted != [] && d.order == sorted[0].order {
      assert sorted == [sorted[0]] + sorted[1..];
      forall e | e in sorted && e.order != d.order
        ensures e in sorted[1..]
      {
      }
    }
  }

  lemma LastSnoc(defs: seq<Stage>, d: Stage, e: Stage)
    ensures LastOfOrder(defs + [d], e) <==> e == d || (LastOfOrder(defs, e) && e.order != d.order)
  {
    var all := defs + [d];
    assert all[|defs|] == d;
    if LastOfOrder(all, e) && e != d {
      var k :| 0 <= k < |all| && all[k] == e && forall l :: k < l < |all| ==> all[l].order != e.order;
      assert defs[k] == e && forall l :: k < l < |defs| ==> defs[l] == all[l];
    }
    if LastOfOrder(defs, e) && e.order != d.order {
      var k :| 0 <= k < |defs| && defs[k] == e && forall l :: k < l < |defs| ==> defs[l].order != e.order;
      assert all[k] == e;
    }
  }

  lemma {:induction false} ByOrderIs(defs: seq<Stage>, e: Stage)
    ensures e in ByOrder(defs) <==> LastOfOrder(defs, e)
  {
    if defs != [] {
      var n := |defs| - 1;
      ByOrderIs(defs[..n], e);
      ByOrderIsOrdered(defs[..n]);
      InsertIs(ByOrder(defs[..n]), defs[n]);
      LastSnoc(defs[..n], defs[n], e);
      assert defs == defs[..n] + [defs[n]];
    }
  }

  /** A derived stage and the definition it was made from. */
  ghost predicate DerivedFrom(defs: seq<Stage>, keys: seq<string>, i: nat, d: Stage, now: Stage)
    requires i < |keys|
  {
    && LastOfOrder(defs, d) && now == d.(shape := Concurrent, entryGates := now.entryGates)
    && (forall g: Gate :: g.kind != DependencyGate ==> (g in now.entryGates <==> g in d.entryGates))
    && (forall g: Gate :: g.kind == DependencyGate ==> (g in now.entryGates <==> Wired(keys, i, g)))
  }

  /**
   The concurrent shape, sorted by order, has one stage for each order: the last definition given for it,
   with its own documents and phases and only the dependencies of its place.
   */
  lemma VariantIs(defs: seq<Stage>, i: nat)
    requires i < |ConcurrentVariant(defs)|
    ensures var out := ConcurrentVariant(defs);
            && StrictlyOrdered(out)
            && (exists d :: DerivedFrom(defs, KeysOf(out), i, d, out[i]))
            && (forall d :: LastOfOrder(defs, d) ==> exists j :: 0 <= j < |out| && out[j].order == d.order)
  {
    var stages, out := ByOrder(defs), ConcurrentVariant(defs);
    ByOrderIsOrdered(defs);
    KeptAreNotDependencies(stages[i].entryGates);
    NewDependenciesAre(stages, i);
    NewAreWired(stages, i);
    assert KeysOf(stages) == KeysOf(out);
    ByOrderIs(defs, stages[i]);
    var kept, added := WithoutDependencies(stages[i].entryGates), NewDependencies(stages, i);
    assert forall g :: g in kept + added <==> g in kept || g in added;
    assert out[i].entryGates == kept + added;
    assert DerivedFrom(defs, KeysOf(out), i, stages[i], out[i]);
    forall d | LastOfOrder(defs, d)
      ensures exists j :: 0 <= j < |out| && out[j].order == d.order
    {
      ByOrderIs(defs, d);
      var j :| 0 <= j < |stages| && stages[j] == d;
      assert out[j].order == d.order;
    }
  }

  // ---- evaluating a stage -----------------------------------------------------------------------------

  datatype GateResult = GateResult(passed: bool, severe: bool)

  /** What is on record for one stage of a project. */
  datatype Evidence = Evidence(supplied: set<string>, results: map<string, GateResult>)

  /** The definition set a project runs on: stages in order, and which quality gates block. */
  datatype Machine = Machine(stages: seq<Stage>, blockingRules: map<string, bool>)

  function FindStage(stages: seq<Stage>, key: string): Option<nat> {
    if stages == [] then None
    else if stages[0].key == key then Some(0)
    else match FindStage(stages[1..], key)
         case None => None
         case Some(i) => Some(i + 1)
  }

  datatype Evaluation = Evaluation(waitingOn: seq<string>, blockedBy: seq<int>, failures: seq<string>, severe: bool) {
    predicate Ready() { waitingOn == [] && blockedBy == [] && failures == [] }
  }

  predicate GateWaits(m: Machine, ev: Evidence, g: Gate) {
    && g.blocking && g.key !in ev.supplied
    && (g.kind.DocumentGate? || (g.kind.DependencyGate? && FindStage(m.stages, g.dependsOn).None?))
  }

  predicate GateBlocks(m: Machine, approved: set<int>, g: Gate) {
    g.kind.DependencyGate? && g.blocking &&
    match FindStage(m.stages, g.dependsOn)
    case None => false
    case Some(i) => i < |m.stages| && m.stages[i].order !in approved
  }

  predicate GateFails(m: Machine, ev: Evidence, key: string) {
    && key in m.blockingRules && m.blockingRules[key]
    && (key in ev.results ==> !ev.results[key].passed)
  }

  /** A blocking gate whose document has not been supplied. */
  predicate LacksDocument(ev: Evidence, g: Gate, text: string) {
    g.kind == DocumentGate && g.blocking && g.key !in ev.supplied && text == "doc:" + g.key
  }

  /** A blocking dependency on no stage at all, whose phase has not been supplied. */
  ghost predicate LacksPhase(m: Machine, ev: Evidence, g: Gate, text: string) {
    && g.kind == DependencyGate && g.blocking && g.key !in ev.supplied && text == "phase:" + g.dependsOn
    && forall i :: 0 <= i < |m.stages| ==> m.stages[i].key != g.dependsOn
  }

  /** The first stage with this key. */
  predicate FirstOf(m: Machine, key: string, i: int) {
    0 <= i < |m.stages| && m.stages[i].key == key && forall j :: 0 <= j < i ==> m.stages[j].key != key
  }

  /** A blocking dependency on a stage, the first of its key, that is not approved. */
  ghost predicate LacksStage(m: Machine, approved: set<int>, g: Gate, order: int) {
    && g.kind == DependencyGate && g.blocking && order !in approved
    && exists i :: FirstOf(m, g.dependsOn, i) && m.stages[i].order == order
  }

  method CheckDocuments(ev: Evidence, gates: seq<Gate>) returns (waitingOn: seq<string>)
    ensures forall text :: text in waitingOn <==> exists g :: g in gates && LacksDocument(ev, g, text)
  {
    waitingOn := [];
    for i := 0 to |gates|
      invariant forall text :: text in waitingOn <==> exists j :: 0 <= j < i && LacksDocument(ev, gates[j], text)
    {
      var g := gates[i];
      if g.kind.DocumentGate? && g.blocking && g.key !in ev.supplied {
        waitingOn := waitingOn + ["doc:" + g.key];
      }
    }
  }

  lemma FoundIs(m: Machine, approved: set<int>, ev: Evidence, g: Gate)
    requires g.kind.DependencyGate? && g.blocking
    ensures match FindStage(m.stages, g.dependsOn)
            case None =>
              && (forall text :: LacksPhase(m, ev, g, text) <==> g.key !in ev.supplied && text == "phase:" + g.dependsOn)
              && (forall order :: !LacksStage(m, approved, g, order))
            case Some(d) =>
              && d < |m.stages|
              && (forall text :: !LacksPhase(m, ev, g, text))
              && (forall order :: LacksStage(m, approved, g, order) <==>
                    order !in approved && order == m.stages[d].order)
  {
    FindStageIsStage(m.stages, g.dependsOn);
    if FindStage(m.stages, g.dependsOn).Some? {
      assert FirstOf(m, g.dependsOn, FindStage(m.stages, g.dependsOn).value);
    }
  }

  method CheckDependencies(m: Machine, approved: set<int>, ev: Evidence, gates: seq<Gate>)
    returns (waitingOn: seq<string>, blockedBy: seq<int>)
    ensures forall text :: text in waitingOn <==> exists g :: g in gates && LacksPhase(m, ev, g, text)
    ensures forall order :: order in blockedBy <==> exists g :: g in gates && LacksStage(m, approved, g, order)
  {
    waitingOn, blockedBy := [], [];
    for i := 0 to |gates|
      invariant forall text :: text in waitingOn <==> exists j :: 0 <= j < i && LacksPhase(m, ev, gates[j], text)
      invariant forall order :: order in blockedBy <==>
        exists j :: 0 <= j < i && LacksStage(m, approved, gates[j], order)
    {
      var g := gates[i];
      if !g.kind.DependencyGate? || !g.blocking {
        continue;
      }
      FoundIs(m, approved, ev, g);
      match FindStage(m.stages, g.dependsOn) {
        case None =>
          if g.key !in ev.supplied {
            waitingOn := waitingOn + ["phase:" + g.dependsOn];
          }
        case Some(d) =>
          if m.stages[d].order !in approved {
            blockedBy := blockedBy + [m.stages[d].order];
          }
      }
    }
  }

  method CheckQuality(m: Machine, ev: Evidence, keys: seq<string>) returns (failures: seq<string>, severe: bool)
    ensures forall key :: key in failures <==>
      && key in keys && key in m.blockingRules && m.blockingRules[key]
      && (key !in ev.results || !ev.results[key].passed)
    ensures severe <==> exists key ::
      && key in keys && key in m.blockingRules && m.blockingRules[key]
      && key in ev.results && !ev.results[key].passed && ev.results[key].severe
  {
    failures, severe := [], false;
    for i := 0 to |keys|
      invariant forall key :: key in failures <==>
        && key in keys[..i] && key in m.blockingRules && m.blockingRules[key]
        && (key !in ev.results || !ev.results[key].passed)
      invariant severe <==> exists key ::
        && key in keys[..i] && key in m.blockingRules && m.blockingRules[key]
        && key in ev.results && !ev.results[key].passed && ev.results[key].severe
    {
      assert keys[..i + 1] == keys[..i] + [keys[i]];
      var key := keys[i];
      if key !in m.blockingRules || !m.blockingRules[key] {
        continue;
      }
      if key !in ev.results {
        failures := failures + [key];
      } else if !ev.results[key].passed {
        failures := failures + [key];
        if ev.results[key].severe {
          severe := true;
        }
      }
    }
    assert keys[..|keys|] == keys;
  }

  method EvaluateStage(m: Machine, approved: set<int>, ev: Evidence, stage: Stage) returns (e: Evaluation)
    ensures forall text :: text in e.waitingOn <==>
      exists g :: g in stage.entryGates && (LacksDocument(ev, g, text) || LacksPhase(m, ev, g, text))
    ensures forall order :: order in e.blockedBy <==>
      exists g :: g in stage.entryGates && LacksStage(m, approved, g, order)
    ensures forall key :: key in e.failures <==>
      && key in stage.qualityGates && key in m.blockingRules && m.blockingRules[key]
      && (key !in ev.results || !ev.results[key].passed)
    ensures e.severe <==> exists key ::
      && key in stage.qualityGates && key in m.blockingRules && m.blockingRules[key]
      && key in ev.results && !ev.results[key].passed && ev.results[key].severe
    ensures e.waitingOn == [] <==> forall g :: g in stage.entryGates ==> !GateWaits(m, ev, g)
    ensures e.blockedBy == [] <==> forall g :: g in stage.entryGates ==> !GateBlocks(m, approved, g)
    ensures e.Ready() <==> Ready(m, approved, ev, stage)
  {
    var documents := CheckDocuments(ev, stage.entryGates);
    var phases, blockedBy := CheckDependencies(m, approved, ev, stage.entryGates);
    var failures, severe := CheckQuality(m, ev, stage.qualityGates);
    e := Evaluation(documents + phases, blockedBy, failures, severe);
    NothingLacks(m, approved, ev, stage, e);
  }

  /** An evaluation that lists what is lacking is ready exactly when the stage is. */
  lemma NothingLacks(m: Machine, approved: set<int>, ev: Evidence, stage: Stage, e: Evaluation)
    requires forall text :: text in e.waitingOn <==>
      exists g :: g in stage.entryGates && (LacksDocument(ev, g, text) || LacksPhase(m, ev, g, text))
    requires forall order :: order in e.blockedBy <==>
      exists g :: g in stage.entryGates && LacksStage(m, approved, g, order)
    requires forall key :: key in e.failures <==> key in stage.qualityGates && GateFails(m, ev, key)
    ensures e.waitingOn == [] <==> forall g :: g in stage.entryGates ==> !GateWaits(m, ev, g)
    ensures e.blockedBy == [] <==> forall g :: g in stage.entryGates ==> !GateBlocks(m, approved, g)
    ensures e.Ready() <==> Ready(m, approved, ev, stage)
  {
    EmptyHasNone(e.waitingOn);
    EmptyHasNone(e.blockedBy);
    EmptyHasNone(e.failures);
    forall g | g in stage.entryGates
      ensures GateWaits(m, ev, g) ==> e.waitingOn != []
      ensures GateBlocks(m, approved, g) ==> e.blockedBy != []
    {
      WaitsIff(m, ev, g);
      BlocksIff(m, approved, g);
      if text :| LacksDocument(ev, g, text) || LacksPhase(m, ev, g, text) {
        assert text in e.waitingOn;
      }
      if order :| LacksStage(m, approved, g, order) {
        assert order in e.blockedBy;
      }
    }
    if e.waitingOn != [] {
      var text := e.waitingOn[0];
      assert text in e.waitingOn;
      var g :| g in stage.entryGates && (LacksDocument(ev, g, text) || LacksPhase(m, ev, g, text));
      WaitsIff(m, ev, g);
    }
    if e.blockedBy != [] {
      var order := e.blockedBy[0];
      assert order in e.blockedBy;
      var g :| g in stage.entryGates && LacksStage(m, approved, g, order);
      BlocksIff(m, approved, g);
    }
  }

  lemma WaitsIff(m: Machine, ev: Evidence, g: Gate)
    ensures GateWaits(m, ev, g) <==> exists text :: LacksDocument(ev, g, text) || LacksPhase(m, ev, g, text)
  {
    FindStageIsStage(m.stages, g.dependsOn);
    if GateWaits(m, ev, g) {
      assert LacksDocument(ev, g, "doc:" + g.key) || LacksPhase(m, ev, g, "phase:" + g.dependsOn);
    }
  }

  lemma BlocksIff(m: Machine, approved: set<int>, g: Gate)
    ensures GateBlocks(m, approved, g) <==> exists order :: LacksStage(m, approved, g, order)
  {
    FindStageIsStage(m.stages, g.dependsOn);
    if FindStage(m.stages, g.dependsOn).Some? {
      assert FirstOf(m, g.dependsOn, FindStage(m.stages, g.dependsOn).value);
    }
    if GateBlocks(m, approved, g) {
      assert LacksStage(m, approved, g, m.stages[FindStage(m.stages, g.dependsOn).value].order);
    }
  }

  /**
   A stage is ready exactly when every blocking document and phase is supplied, every stage it depends on
   is approved, and every blocking quality gate has a result on record that passed.
   */
  lemma ReadyIff(m: Machine, approved: set<int>, ev: Evidence, stage: Stage)
    ensures Ready(m, approved, ev, stage) <==>
      && (forall g :: g in stage.entryGates && g.blocking && g.kind == DocumentGate ==> g.key in ev.supplied)
      && (forall g :: g in stage.entryGates && g.blocking && g.kind == DependencyGate ==>
            (forall i :: 0 <= i < |m.stages| ==> m.stages[i].key != g.dependsOn) ==> g.key in ev.supplied)
      && (forall g, i :: g in stage.entryGates && g.blocking && g.kind == DependencyGate && FirstOf(m, g.dependsOn, i) ==>
            m.stages[i].order in approved)
      && (forall key :: key in stage.qualityGates && key in m.blockingRules && m.blockingRules[key] ==>
            key in ev.results && ev.results[key].passed)
  {
    forall g | g in stage.entryGates
      ensures GateWaits(m, ev, g) <==>
        && g.blocking && g.key !in ev.supplied
        && (g.kind == DocumentGate
            || (g.kind == DependencyGate && forall i :: 0 <= i < |m.stages| ==> m.stages[i].key != g.dependsOn))
      ensures GateBlocks(m, approved, g) <==>
        && g.blocking && g.kind == DependencyGate
        && exists i :: FirstOf(m, g.dependsOn, i) && m.stages[i].order !in approved
    {
      GateIs(m, approved, ev, g);
    }
  }

  /** When an entry gate waits, and when it blocks. */
  lemma GateIs(m: Machine, approved: set<int>, ev: Evidence, g: Gate)
    ensures GateWaits(m, ev, g) <==>
      && g.blocking && g.key !in ev.supplied
      && (g.kind == DocumentGate
          || (g.kind == DependencyGate && forall i :: 0 <= i < |m.stages| ==> m.stages[i].key != g.dependsOn))
    ensures GateBlocks(m, approved, g) <==>
      && g.blocking && g.kind == DependencyGate
      && exists i :: FirstOf(m, g.dependsOn, i) && m.stages[i].order !in approved
  {
    FindStageIsStage(m.stages, g.dependsOn);
    if FindStage(m.stages, g.dependsOn).Some? {
      assert FirstOf(m, g.dependsOn, FindStage(m.stages, g.dependsOn).value);
    }
  }

  lemma EmptyHasNone<T>(s: seq<T>)
    ensures s == [] <==> forall x :: x !in s
  {
    if s != [] {
      assert s[0] in s;
    }
  }

  ghost predicate Ready(m: Machine, approved: set<int>, ev: Evidence, stage: Stage) {
    && (forall g :: g in stage.entryGates ==> !GateWaits(m, ev, g) && !GateBlocks(m, approved, g))
    && (forall key :: key in stage.qualityGates ==> !GateFails(m, ev, key))
  }

  lemma {:induction false} FindStageIsStage(stages: seq<Stage>, key: string)
    ensures match FindStage(stages, key)
            case None => forall i :: 0 <= i < |stages| ==> stages[i].key != key
            case Some(i) => i < |stages| && stages[i].key == key && forall j :: 0 <= j < i ==> stages[j].key != key
  {
    if stages != [] && stages[0].key != key {
      FindStageIsStage(stages[1..], key);
      assert forall i :: 0 <= i < |stages| - 1 ==> stages[1..][i] == stages[i + 1];
    }
  }

  // ---- admission ---------------------------------------------------------------------------------------

  /** One attempt at approving a stage: the evidence at that moment, and the other checks' outcome. */
  datatype Attempt = Attempt(stage: nat, evidence: Evidence, otherChecksPass: bool)

  ghost predicate Admitted(m: Machine, approved: set<int>, a: Attempt) {
    a.stage < |m.stages| && a.otherChecksPass && Ready(m, approved, a.evidence, m.stages[a.stage])
  }

  /** An approved stage's blocking dependencies are approved. */
  ghost predicate Closed(m: Machine, approved: set<int>) {
    forall i, g :: 0 <= i < |m.stages| && m.stages[i].order in approved && g in m.stages[i].entryGates ==>
      !GateBlocks(m, approved, g)
  }

  /** The machine a concurrent configuration gives: its keys are unique within the version. */
  ghost predicate ConcurrentMachine(m: Machine, defs: seq<Stage>) {
    && defs != [] && m.stages == ConcurrentVariant(defs)
    && forall i, j :: 0 <= i < j < |m.stages| ==> m.stages[i].key != m.stages[j].key
  }

  /** Which stages each stage of the concurrent machine waits for. */
  predicate WaitsFor(m: Machine, i: nat, j: nat) {
    if i + 1 == |m.stages| then 0 < j < i else i > 0 && j == 0
  }

  lemma FoundOnce(m: Machine, j: nat, key: string)
    requires j < |m.stages| && m.stages[j].key == key
    requires forall i, k :: 0 <= i < k < |m.stages| ==> m.stages[i].key != m.stages[k].key
    ensures FindStage(m.stages, key) == Some(j)
  {
    FindStageIsStage(m.stages, key);
  }

  lemma DependsAsWired(defs: seq<Stage>, i: nat, g: Gate)
    requires i < |ConcurrentVariant(defs)| && g in ConcurrentVariant(defs)[i].entryGates && g.kind.DependencyGate?
    ensures Wired(KeysOf(ConcurrentVariant(defs)), i, g)
  {
    VariantIs(defs, i);
  }

  lemma DependencyOf(m: Machine, defs: seq<Stage>, approved: set<int>, i: nat, g: Gate)
    requires ConcurrentMachine(m, defs) && i < |m.stages| && g in m.stages[i].entryGates
    requires g.kind.DependencyGate?
    ensures exists j :: 0 <= j < |m.stages| && WaitsFor(m, i, j) && FindStage(m.stages, g.dependsOn) == Some(j)
  {
    DependsAsWired(defs, i, g);
    var keys := KeysOf(m.stages);
    var j: nat := 0;
    if i + 1 == |m.stages| {
      j :| 1 <= j < i && g == Gate(keys[j] + "_done", DependencyGate, keys[j], true);
    }
    FoundOnce(m, j, g.dependsOn);
  }

  lemma DependencyExists(m: Machine, defs: seq<Stage>, i: nat, j: nat)
    requires ConcurrentMachine(m, defs) && i < |m.stages| && j < |m.stages| && WaitsFor(m, i, j)
    ensures exists g :: g in m.stages[i].entryGates && g.kind.DependencyGate? && g.blocking
                        && FindStage(m.stages, g.dependsOn) == Some(j)
  {
    var stages := ByOrder(defs);
    var g := if i + 1 == |stages| then Finished(stages[j].key) else Started(stages[0].key);
    if i + 1 == |stages| {
      MiddleGatesAre(stages, i);
      assert MiddleGates(stages, i)[j - 1] == g;
    }
    assert g in NewDependencies(stages, i) && g in m.stages[i].entryGates;
    FindStageIsStage(m.stages, g.dependsOn);
    assert m.stages[j].key == g.dependsOn;
  }

  /** All documents supplied and all quality gates passed for a stage. */
  ghost predicate FullEvidence(m: Machine, ev: Evidence, stage: Stage) {
    && (forall g :: g in stage.entryGates ==> !GateWaits(m, ev, g))
    && (forall key :: key in stage.qualityGates ==> !GateFails(m, ev, key))
  }

  /** With its evidence in place, a stage is admitted exactly when the stages it waits for are approved. */
  lemma AdmittedWhenDependenciesAre(m: Machine, defs: seq<Stage>, approved: set<int>, a: Attempt)
    requires ConcurrentMachine(m, defs) && a.stage < |m.stages| && a.otherChecksPass
    requires FullEvidence(m, a.evidence, m.stages[a.stage])
    ensures Admitted(m, approved, a) <==>
      forall j :: 0 <= j < |m.stages| && WaitsFor(m, a.stage, j) ==> m.stages[j].order in approved
  {
    var stage := m.stages[a.stage];
    if forall j :: 0 <= j < |m.stages| && WaitsFor(m, a.stage, j) ==> m.stages[j].order in approved {
      forall g | g in stage.entryGates
        ensures !GateBlocks(m, approved, g)
      {
        if g.kind.DependencyGate? {
          DependencyOf(m, defs, approved, a.stage, g);
        }
      }
    } else {
      var j :| 0 <= j < |m.stages| && WaitsFor(m, a.stage, j) && m.stages[j].order !in approved;
      DependencyExists(m, defs, a.stage, j);
    }
  }
}
