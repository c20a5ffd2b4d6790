/**
 Publishing immutable configuration versions, with any number of publishers racing.

 Each database read and write of a publisher is one step, and a publisher may stop after any of
 them. Only the unique index on (configuration, version, key) arbitrates between publishers.
 */
module Publishing {
  import opened Options
  import opened StageGraph

  /** One place of the fixed stage skeleton. */
  datatype Slot = Slot(key: string, order: int)

  datatype DefId = DefId(config: nat, version: nat, key: string)

  /** A gate rule: its key and everything tunable about it. */
  datatype Rule = Rule(key: string, content: int)

  datatype Config = Config(current: nat, shape: Shape)

  datatype EntryDocument = EntryDocument(key: string, blocking: bool)

  /** The editable surface of one stage: its documents and attached gates. */
  datatype Edit = Edit(documents: seq<EntryDocument>, gates: seq<string>)

  datatype Payload = Payload(config: nat, shape: Option<Shape>, edits: map<string, Edit>, tuning: map<string, int>)

  type Catalog = map<string, Rule>

  datatype Phase =
    | Asked
    | KnowsConfig(base: nat, shape: Shape)
    | KnowsVersion(base: nat, shape: Shape, version: nat)
    | Writing(target: nat, newShape: Shape, stages: seq<Stage>, rules: seq<Rule>, written: nat)
    | Adopted(target: nat)
    | Stopped

  datatype Publisher = Publisher(payload: Payload, phase: Phase)

  datatype Pin = Pin(config: nat, version: nat)

  datatype State = State(
    configs: map<nat, Config>, stages: map<DefId, Stage>, rules: map<DefId, Rule>,
    publishers: seq<Publisher>, pins: seq<Pin>)

  // ---- what a publish writes --------------------------------------------------------------------------

  function Attachable(gates: seq<string>, catalog: Catalog): seq<string> {
    if gates == [] then []
    else (if gates[0] in catalog then [gates[0]] else []) + Attachable(gates[1..], catalog)
  }

  function OnlyDependencyGates(gates: seq<Gate>): seq<Gate> {
    if gates == [] then []
    else (if gates[0].kind.DependencyGate? then [gates[0]] else []) + OnlyDependencyGates(gates[1..])
  }

  function DocumentGates(documents: seq<EntryDocument>): seq<Gate> {
    seq(|documents|, i requires 0 <= i < |documents| =>
      Gate(documents[i].key, DocumentGate, "", documents[i].blocking))
  }

  function ApplyEdit(stage: Stage, edit: Edit, catalog: Catalog): Stage {
    stage.(entryGates := DocumentGates(edit.documents) + OnlyDependencyGates(stage.entryGates),
           qualityGates := Attachable(edit.gates, catalog))
  }

  function Edited(current: seq<Stage>, edits: map<string, Edit>, catalog: Catalog): seq<Stage> {
    seq(|current|, i requires 0 <= i < |current| =>
      if current[i].key in edits then ApplyEdit(current[i], edits[current[i].key], catalog) else current[i])
  }

  /** Dependencies are rebuilt only when the shape changes to concurrent. */
  function NewStages(current: seq<Stage>, payload: Payload, catalog: Catalog, shape: Shape): seq<Stage> {
    var wanted := if payload.shape.Some? then payload.shape.value else shape;
    var edited := Edited(current, payload.edits, catalog);
    var wired := if wanted != shape && wanted.Concurrent? then ConcurrentVariant(edited) else edited;
    seq(|wired|, i requires 0 <= i < |wired| => wired[i].(shape := wanted))
  }

  function AttachedKeys(stages: seq<Stage>): set<string> {
    set i, k | 0 <= i < |stages| && 0 <= k < |stages[i].qualityGates| :: stages[i].qualityGates[k]
  }

  ghost predicate ListsOnce(keys: seq<string>, all: set<string>) {
    && (forall key :: key in all <==> key in keys)
    && (forall i, j :: 0 <= i < j < |keys| ==> keys[i] != keys[j])
  }

  function RuleFor(key: string, catalog: Catalog, tuning: map<string, int>): Rule
    requires key in catalog
  {
    Rule(key, if key in tuning then tuning[key] else catalog[key].content)
  }

  function RulesFor(keys: seq<string>, catalog: Catalog, tuning: map<string, int>): seq<Rule>
    requires forall i :: 0 <= i < |keys| ==> keys[i] in catalog
  {
    seq(|keys|, i requires 0 <= i < |keys| => RuleFor(keys[i], catalog, tuning))
  }

  // ---- steps --------------------------------------------------------------------------------------------

  datatype Event =
    | Begin(payload: Payload)
    | ReadConfig(p: nat)
    | ReadHighest(p: nat)
    | Draft(p: nat, catalog: Catalog, keys: seq<string>)
    | WriteNext(p: nat)
    | Adopt(p: nat)
    | Stop(p: nat)
    | Clone(base: nat, id: nat)
    | StartProject(config: nat)

  ghost function MaxOf(numbers: set<nat>): nat {
    if numbers == {} then 0 else
    var n :| n in numbers;
    var rest := MaxOf(numbers - {n});
    if n > rest then n else rest
  }

  lemma {:induction false} MaxIsUpper(numbers: set<nat>, n: nat)
    requires n in numbers
    ensures n <= MaxOf(numbers)
  {
    var m :| m in numbers && MaxOf(numbers) == if m > MaxOf(numbers - {m}) then m else MaxOf(numbers - {m});
    if n != m {
      MaxIsUpper(numbers - {m}, n);
    }
  }

  function VersionsOf(stages: map<DefId, Stage>, config: nat): set<nat> {
    set id | id in stages && id.config == config :: id.version
  }

  ghost function Highest(s: State, config: nat): nat {
    MaxOf(VersionsOf(s.stages, config))
  }

  /** The stage documents of one version, in skeleton order. */
  function StageDocs(s: State, skeleton: seq<Slot>, config: nat, version: nat): seq<Stage> {
    if skeleton == [] then []
    else (if DefId(config, version, skeleton[0].key) in s.stages
          then [s.stages[DefId(config, version, skeleton[0].key)]] else [])
         + StageDocs(s, skeleton[1..], config, version)
  }

  /** Both unique indexes: on the key, and on the order. */
  predicate Clashes(s: State, config: nat, version: nat, d: Stage) {
    || DefId(config, version, d.key) in s.stages
    || exists id :: id in s.stages && id.config == config && id.version == version && s.stages[id].order == d.order
  }

  function WithPhase(s: State, p: nat, phase: Phase): State
    requires p < |s.publishers|
  {
    s.(publishers := s.publishers[p := s.publishers[p].(phase := phase)])
  }

  /** The next free version number, as far as this publisher can see. */
  ghost function Picked(s: State, q: Publisher): Phase
    requires q.phase.KnowsConfig?
  {
    var highest := Highest(s, q.payload.config);
    KnowsVersion(q.phase.base, q.phase.shape, (if q.phase.base > highest then q.phase.base else highest) + 1)
  }

  ghost function Drafted(s: State, skeleton: seq<Slot>, q: Publisher, catalog: Catalog, keys: seq<string>): Phase
    requires q.phase.KnowsVersion?
  {
    var payload, phase := q.payload, q.phase;
    var current := StageDocs(s, skeleton, payload.config, phase.base);
    if current == []
       || (exists key :: key in payload.edits && forall i :: 0 <= i < |current| ==> current[i].key != key)
       || (exists key, k :: key in payload.edits && 0 <= k < |payload.edits[key].gates|
                            && payload.edits[key].gates[k] !in catalog)
    then Stopped else
    var stages := NewStages(current, payload, catalog, phase.shape);
    // a gate carried over from the base version may have left the catalog: the lookup raises
    if !ListsOnce(keys, AttachedKeys(stages)) || (exists i :: 0 <= i < |keys| && keys[i] !in catalog)
    then Stopped else
    Writing(phase.version, if payload.shape.Some? then payload.shape.value else phase.shape,
            stages, RulesFor(keys, catalog, payload.tuning), 0)
  }

  function Advanced(q: Publisher): Publisher
    requires q.phase.Writing?
  {
    q.(phase := q.phase.(written := q.phase.written + 1))
  }

  function WriteStage(s: State, p: nat): State
    requires p < |s.publishers| && s.publishers[p].phase.Writing?
    requires s.publishers[p].phase.written < |s.publishers[p].phase.stages|
  {
    var q := s.publishers[p];
    var d := q.phase.stages[q.phase.written];
    if Clashes(s, q.payload.config, q.phase.target, d) then WithPhase(s, p, Stopped)
    else s.(publishers := s.publishers[p := Advanced(q)],
            stages := s.stages[DefId(q.payload.config, q.phase.target, d.key) := d])
  }

  function WriteRule(s: State, p: nat): State
    requires p < |s.publishers| && s.publishers[p].phase.Writing?
    requires 0 <= s.publishers[p].phase.written - |s.publishers[p].phase.stages| < |s.publishers[p].phase.rules|
  {
    var q := s.publishers[p];
    var r := q.phase.rules[q.phase.written - |q.phase.stages|];
    if DefId(q.payload.config, q.phase.target, r.key) in s.rules then WithPhase(s, p, Stopped)
    else s.(publishers := s.publishers[p := Advanced(q)],
            rules := s.rules[DefId(q.payload.config, q.phase.target, r.key) := r])
  }

  /** One insert, stages before gate rules; a duplicate key ends the publish. */
  function WriteStep(s: State, p: nat): State
    requires p < |s.publishers| && s.publishers[p].phase.Writing?
  {
    var w := s.publishers[p].phase;
    if w.written < |w.stages| then WriteStage(s, p)
    else if w.written < |w.stages| + |w.rules| then WriteRule(s, p)
    else s
  }

  function AdoptStep(s: State, p: nat): State
    requires p < |s.publishers| && s.publishers[p].phase.Writing?
    requires s.publishers[p].phase.written == |s.publishers[p].phase.stages| + |s.publishers[p].phase.rules|
  {
    var config, w := s.publishers[p].payload.config, s.publishers[p].phase;
    WithPhase(s, p, Adopted(w.target)).(configs := s.configs[config := Config(w.target, w.newShape)])
  }

  function CopiedStages(s: State, base: nat, version: nat, id: nat): map<DefId, Stage> {
    map d | d in (set e | e in s.stages && e.config == base && e.version == version :: DefId(id, 1, e.key))
      && DefId(base, version, d.key) in s.stages :: s.stages[DefId(base, version, d.key)]
  }

  function CopiedRules(s: State, base: nat, version: nat, id: nat): map<DefId, Rule> {
    map d | d in (set e | e in s.rules && e.config == base && e.version == version :: DefId(id, 1, e.key))
      && DefId(base, version, d.key) in s.rules :: s.rules[DefId(base, version, d.key)]
  }

  /** A new configuration always starts as a copy of another's current version. */
  function CloneStep(s: State, base: nat, id: nat): State
    requires base in s.configs && id !in s.configs
  {
    var version := s.configs[base].current;
    s.(configs := s.configs[id := Config(1, s.configs[base].shape)],
       stages := s.stages + CopiedStages(s, base, version, id),
       rules := s.rules + CopiedRules(s, base, version, id))
  }

  /** Events that only move one publisher to another phase. */
  predicate Thinks(e: Event) {
    e.ReadConfig? || e.ReadHighest? || e.Draft? || e.Stop?
  }

  /** Every document is written; the configuration can be pointed at the new version. */
  predicate Ready(q: Publisher) {
    q.phase.Writing? && q.phase.written == |q.phase.stages| + |q.phase.rules|
  }

  predicate Enabled(s: State, e: Event) {
    match e
    case Begin(_) => true
    case Clone(base, id) => base in s.configs && id !in s.configs
    case StartProject(config) => config in s.configs
    case ReadConfig(p) => p < |s.publishers| && s.publishers[p].phase.Asked?
    case ReadHighest(p) => p < |s.publishers| && s.publishers[p].phase.KnowsConfig?
    case Draft(p, _, _) => p < |s.publishers| && s.publishers[p].phase.KnowsVersion?
    case WriteNext(p) => p < |s.publishers| && s.publishers[p].phase.Writing?
    case Adopt(p) => p < |s.publishers| && Ready(s.publishers[p])
    case Stop(p) => p < |s.publishers| && !s.publishers[p].phase.Adopted?
  }

  ghost function Thought(s: State, skeleton: seq<Slot>, e: Event): Phase
    requires Thinks(e) && Enabled(s, e)
  {
    var q := s.publishers[e.p];
    match e
    case ReadConfig(p) =>
      if q.payload.config !in s.configs then Stopped
      else KnowsConfig(s.configs[q.payload.config].current, s.configs[q.payload.config].shape)
    case ReadHighest(p) => Picked(s, q)
    case Draft(p, catalog, keys) => Drafted(s, skeleton, q, catalog, keys)
    case Stop(p) => Stopped
  }

  ghost function Next(s: State, skeleton: seq<Slot>, e: Event): State {
    if !Enabled(s, e) then s
    else if Thinks(e) then WithPhase(s, e.p, Thought(s, skeleton, e))
    else match e
         case Begin(payload) => s.(publishers := s.publishers + [Publisher(payload, Asked)])
         case Clone(base, id) => CloneStep(s, base, id)
         case StartProject(config) => s.(pins := s.pins + [Pin(config, s.configs[config].current)])
         case WriteNext(p) => WriteStep(s, p)
         case Adopt(p) => AdoptStep(s, p)
  }

  ghost function Run(s: State, skeleton: seq<Slot>, events: seq<Event>): State {
    if events == [] then s
    else Next(Run(s, skeleton, events[..|events| - 1]), skeleton, events[|events| - 1])
  }

  // ---- the invariant --------------------------------------------------------------------------------------

  ghost predicate Skeletal(skeleton: seq<Slot>) {
    && skeleton != []
    && (forall i, j :: 0 <= i < j < |skeleton| ==>
      skeleton[i].key != skeleton[j].key && skeleton[i].order < skeleton[j].order)
  }

  ghost predicate Fits(skeleton: seq<Slot>, d: Stage) {
    exists i :: 0 <= i < |skeleton| && skeleton[i] == Slot(d.key, d.order)
  }

  ghost predicate Laid(skeleton: seq<Slot>, stages: seq<Stage>) {
    |stages| == |skeleton| && forall i :: 0 <= i < |stages| ==> skeleton[i] == Slot(stages[i].key, stages[i].order)
  }

  ghost predicate HasStages(s: State, skeleton: seq<Slot>, config: nat, version: nat) {
    forall i :: 0 <= i < |skeleton| ==> DefId(config, version, skeleton[i].key) in s.stages
  }

  ghost predicate HasRules(s: State, config: nat, version: nat) {
    forall id, key :: id in s.stages && id.config == config && id.version == version ==>
      key in s.stages[id].qualityGates ==> DefId(config, version, key) in s.rules
  }

  /** Every skeleton stage is there, and a gate rule for each gate attached to one. */
  ghost predicate Complete(s: State, skeleton: seq<Slot>, config: nat, version: nat) {
    HasStages(s, skeleton, config, version) && HasRules(s, config, version)
  }

  /** Some but not all of its documents are written. */
  predicate Midway(q: Publisher) {
    q.phase.Writing? && 0 < q.phase.written < |q.phase.stages| + |q.phase.rules|
  }

  ghost predicate Quiet(s: State, config: nat, version: nat) {
    forall p :: 0 <= p < |s.publishers| && Midway(s.publishers[p]) ==>
      !(s.publishers[p].payload.config == config && s.publishers[p].phase.target == version)
  }

  /** Complete, and no publisher is in the middle of writing it. */
  ghost predicate Sealed(s: State, skeleton: seq<Slot>, config: nat, version: nat) {
    config in s.configs && Complete(s, skeleton, config, version) && Quiet(s, config, version)
  }

  predicate RulesCover(stages: seq<Stage>, rules: seq<Rule>) {
    && (forall i, key :: 0 <= i < |stages| && key in stages[i].qualityGates ==>
      exists j :: 0 <= j < |rules| && rules[j].key == key)
    && (forall i, j :: 0 <= i < j < |rules| ==> rules[i].key != rules[j].key)
  }

  predicate StageWritten(s: State, config: nat, version: nat, d: Stage) {
    DefId(config, version, d.key) in s.stages && s.stages[DefId(config, version, d.key)] == d
  }

  predicate RuleWritten(s: State, config: nat, version: nat, r: Rule) {
    DefId(config, version, r.key) in s.rules && s.rules[DefId(config, version, r.key)] == r
  }

  ghost predicate Progress(s: State, config: nat, w: Phase)
    requires w.Writing?
  {
    && w.written <= |w.stages| + |w.rules|
    && (forall i :: 0 <= i < |w.stages| && i < w.written ==> StageWritten(s, config, w.target, w.stages[i]))
    && (forall j :: 0 <= j < |w.rules| && j + |w.stages| < w.written ==> RuleWritten(s, config, w.target, w.rules[j]))
  }

  ghost predicate Underway(s: State, skeleton: seq<Slot>, q: Publisher)
    requires q.phase.Writing?
  {
    && q.payload.config in s.configs && Laid(skeleton, q.phase.stages)
    && RulesCover(q.phase.stages, q.phase.rules) && Progress(s, q.payload.config, q.phase)
  }

  ghost predicate Sound(s: State, skeleton: seq<Slot>, q: Publisher) {
    var config := q.payload.config;
    match q.phase
    case Asked => true
    case KnowsConfig(base, _) => Sealed(s, skeleton, config, base)
    case KnowsVersion(base, _, version) => Sealed(s, skeleton, config, base) && base < version
    case Writing(_, _, _, _, _) => Underway(s, skeleton, q)
    case Adopted(target) => Sealed(s, skeleton, config, target)
    case Stopped => true
  }

  predicate Started(q: Publisher) {
    (q.phase.Writing? && q.phase.written > 0) || q.phase.Adopted?
  }

  predicate SameTarget(a: Publisher, b: Publisher)
    requires Started(a) && Started(b)
  {
    a.payload.config == b.payload.config && a.phase.target == b.phase.target
  }

  ghost predicate Exclusive(s: State) {
    forall p, q :: 0 <= p < q < |s.publishers| && Started(s.publishers[p]) && Started(s.publishers[q]) ==>
      !SameTarget(s.publishers[p], s.publishers[q])
  }

  ghost predicate Documents(s: State, skeleton: seq<Slot>)
    requires skeleton != []
  {
    && (forall id :: id in s.stages ==>
      id.config in s.configs && s.stages[id].key == id.key && Fits(skeleton, s.stages[id]))
    && (forall id :: id in s.rules ==>
      id.config in s.configs && DefId(id.config, id.version, skeleton[0].key) in s.stages)
  }

  ghost predicate Holders(s: State, skeleton: seq<Slot>) {
    && (forall c :: c in s.configs ==> Sealed(s, skeleton, c, s.configs[c].current))
    && (forall k :: 0 <= k < |s.pins| ==> Sealed(s, skeleton, s.pins[k].config, s.pins[k].version))
  }

  ghost predicate Publishers(s: State, skeleton: seq<Slot>) {
    forall p :: 0 <= p < |s.publishers| ==> Sound(s, skeleton, s.publishers[p])
  }

  ghost predicate Inv(s: State, skeleton: seq<Slot>) {
    && Skeletal(skeleton) && Documents(s, skeleton) && Holders(s, skeleton)
    && Publishers(s, skeleton) && Exclusive(s)
  }

  /** Seeded configurations, each with a complete current version, and nobody publishing yet. */
  ghost predicate Seeded(s: State, skeleton: seq<Slot>) {
    && Skeletal(skeleton) && Documents(s, skeleton) && s.publishers == [] && s.pins == []
    && (forall c :: c in s.configs ==> Complete(s, skeleton, c, s.configs[c].current))
  }

  // ---- nothing is overwritten -----------------------------------------------------------------------------

  ghost predicate Grows(s: State, t: State) {
    && (forall c :: c in s.configs ==> c in t.configs)
    && (forall id :: id in s.stages ==> id in t.stages && t.stages[id] == s.stages[id])
    && (forall id :: id in s.rules ==> id in t.rules && t.rules[id] == s.rules[id])
  }

  /** The documents of one version are exactly the same ones. */
  ghost predicate SameVersion(s: State, t: State, config: nat, version: nat) {
    && (forall key :: DefId(config, version, key) in t.stages ==> DefId(config, version, key) in s.stages)
    && (forall key :: DefId(config, version, key) in t.rules ==> DefId(config, version, key) in s.rules)
  }

  lemma CloneStages(s: State, base: nat, id: nat)
    requires base in s.configs && id !in s.configs && forall d :: d in s.stages ==> d.config in s.configs
    ensures forall d :: d in s.stages ==>
      d in CloneStep(s, base, id).stages && CloneStep(s, base, id).stages[d] == s.stages[d]
    ensures forall d :: d in CloneStep(s, base, id).stages ==> d in s.stages || d.config == id
  {
    assert forall d :: d in CopiedStages(s, base, s.configs[base].current, id) ==> d.config == id;
  }

  lemma CloneRules(s: State, base: nat, id: nat)
    requires base in s.configs && id !in s.configs && forall d :: d in s.rules ==> d.config in s.configs
    ensures forall d :: d in s.rules ==>
      d in CloneStep(s, base, id).rules && CloneStep(s, base, id).rules[d] == s.rules[d]
    ensures forall d :: d in CloneStep(s, base, id).rules ==> d in s.rules || d.config == id
  {
    assert forall d :: d in CopiedRules(s, base, s.configs[base].current, id) ==> d.config == id;
  }

  lemma CloneGrows(s: State, skeleton: seq<Slot>, base: nat, id: nat)
    requires skeleton != [] && Documents(s, skeleton) && base in s.configs && id !in s.configs
    ensures Grows(s, CloneStep(s, base, id))
    ensures forall d :: d in CloneStep(s, base, id).stages ==> d in s.stages || d.config == id
    ensures forall d :: d in CloneStep(s, base, id).rules ==> d in s.rules || d.config == id
  {
    CloneStages(s, base, id);
    CloneRules(s, base, id);
  }

  lemma NextGrows(s: State, skeleton: seq<Slot>, e: Event)
    requires skeleton != [] && Documents(s, skeleton)
    ensures Grows(s, Next(s, skeleton, e))
  {
    if e.Clone? && Enabled(s, e) {
      CloneGrows(s, skeleton, e.base, e.id);
    }
  }

  /** Every sequence of events leaves the documents that exist as they are. */
  lemma SealedMoves(s: State, t: State, skeleton: seq<Slot>, config: nat, version: nat)
    requires Sealed(s, skeleton, config, version) && Grows(s, t) && SameVersion(s, t, config, version)
    requires Quiet(t, config, version)
    ensures Sealed(t, skeleton, config, version)
  {
    forall id, key | id in t.stages && id.config == config && id.version == version
                     && key in t.stages[id].qualityGates
      ensures DefId(config, version, key) in t.rules
    {
      assert id == DefId(config, version, id.key);
      assert id in s.stages;
    }
  }

  /** A write to a complete version always runs into the unique index. */
  lemma SealedRefuses(s: State, skeleton: seq<Slot>, p: nat, config: nat, version: nat)
    requires skeleton != [] && p < |s.publishers| && s.publishers[p].phase.Writing?
    requires Underway(s, skeleton, s.publishers[p]) && Sealed(s, skeleton, config, version)
    requires s.publishers[p].payload.config == config && s.publishers[p].phase.target == version
    ensures WriteStep(s, p) == WithPhase(s, p, Stopped) || WriteStep(s, p) == s
  {
    var q := s.publishers[p];
    if q.phase.written == 0 {
      assert skeleton[0] == Slot(q.phase.stages[0].key, q.phase.stages[0].order);
      assert DefId(config, version, skeleton[0].key) in s.stages;
    } else {
      assert !Midway(q);
    }
  }

  predicate Aims(q: Publisher, config: nat, version: nat) {
    Midway(q) && q.payload.config == config && q.phase.target == version
  }

  lemma QuietMoves(s: State, t: State, p: nat, q: Publisher, config: nat, version: nat)
    requires Quiet(s, config, version) && p < |s.publishers| && t.publishers == s.publishers[p := q]
    requires Aims(q, config, version) ==> Aims(s.publishers[p], config, version)
    ensures Quiet(t, config, version)
  {
  }

  lemma SealedByWrite(s: State, skeleton: seq<Slot>, p: nat, config: nat, version: nat)
    requires skeleton != [] && Sealed(s, skeleton, config, version)
    requires p < |s.publishers| && s.publishers[p].phase.Writing? && Underway(s, skeleton, s.publishers[p])
    ensures SameVersion(s, WriteStep(s, p), config, version) && Quiet(WriteStep(s, p), config, version)
  {
    var q, t := s.publishers[p], WriteStep(s, p);
    if q.payload.config == config && q.phase.target == version {
      SealedRefuses(s, skeleton, p, config, version);
      if t != s {
        QuietMoves(s, t, p, t.publishers[p], config, version);
      }
    } else {
      WriteElsewhere(s, p, config, version);
      if t != s {
        QuietMoves(s, t, p, t.publishers[p], config, version);
      }
    }
  }

  lemma WriteElsewhere(s: State, p: nat, config: nat, version: nat)
    requires p < |s.publishers| && s.publishers[p].phase.Writing?
    requires s.publishers[p].payload.config != config || s.publishers[p].phase.target != version
    ensures SameVersion(s, WriteStep(s, p), config, version)
    ensures var t := WriteStep(s, p);
            t == s || (t.publishers == s.publishers[p := t.publishers[p]] && !Aims(t.publishers[p], config, version))
  {
  }

  lemma SealedByThought(s: State, skeleton: seq<Slot>, e: Event, config: nat, version: nat)
    requires Quiet(s, config, version) && Thinks(e) && Enabled(s, e)
    ensures SameVersion(s, Next(s, skeleton, e), config, version) && Quiet(Next(s, skeleton, e), config, version)
  {
    var phase := Thought(s, skeleton, e);
    QuietMoves(s, WithPhase(s, e.p, phase), e.p, s.publishers[e.p].(phase := phase), config, version);
  }

  lemma SealedByClone(s: State, skeleton: seq<Slot>, base: nat, id: nat, config: nat, version: nat)
    requires skeleton != [] && Documents(s, skeleton) && base in s.configs && id !in s.configs
    requires Quiet(s, config, version) && config in s.configs
    ensures SameVersion(s, CloneStep(s, base, id), config, version) && Quiet(CloneStep(s, base, id), config, version)
  {
    CloneGrows(s, skeleton, base, id);
  }

  lemma SealedByAdoption(s: State, p: nat, config: nat, version: nat)
    requires p < |s.publishers| && Ready(s.publishers[p]) && Quiet(s, config, version)
    ensures SameVersion(s, AdoptStep(s, p), config, version) && Quiet(AdoptStep(s, p), config, version)
  {
    QuietMoves(s, AdoptStep(s, p), p, AdoptStep(s, p).publishers[p], config, version);
  }

  lemma NextQuiet(s: State, skeleton: seq<Slot>, e: Event, config: nat, version: nat)
    requires skeleton != [] && Documents(s, skeleton) && Sealed(s, skeleton, config, version) && Enabled(s, e)
    requires e.WriteNext? ==> Underway(s, skeleton, s.publishers[e.p])
    ensures SameVersion(s, Next(s, skeleton, e), config, version) && Quiet(Next(s, skeleton, e), config, version)
  {
    if Thinks(e) {
      SealedByThought(s, skeleton, e, config, version);
    } else {
      match e
      case Begin(_) =>
      case StartProject(_) =>
      case Clone(base, id) => SealedByClone(s, skeleton, base, id, config, version);
      case WriteNext(p) => SealedByWrite(s, skeleton, p, config, version);
      case Adopt(p) => SealedByAdoption(s, p, config, version);
    }
  }

  /** Once a version is complete and its publisher done, no event adds, drops or changes a document of it. */
  lemma NextSealed(s: State, skeleton: seq<Slot>, e: Event, config: nat, version: nat)
    requires Inv(s, skeleton) && Sealed(s, skeleton, config, version)
    ensures Sealed(Next(s, skeleton, e), skeleton, config, version)
    ensures SameVersion(s, Next(s, skeleton, e), config, version)
  {
    if Enabled(s, e) {
      assert e.WriteNext? ==> Sound(s, skeleton, s.publishers[e.p]);
      NextGrows(s, skeleton, e);
      NextQuiet(s, skeleton, e, config, version);
      SealedMoves(s, Next(s, skeleton, e), skeleton, config, version);
    }
  }

  // ---- each step keeps the invariant -----------------------------------------------------------------------

  ghost predicate SealedStays(s: State, t: State, skeleton: seq<Slot>) {
    forall c, v :: Sealed(s, skeleton, c, v) ==> Sealed(t, skeleton, c, v)
  }

  lemma NextSealedStays(s: State, skeleton: seq<Slot>, e: Event)
    requires Inv(s, skeleton)
    ensures SealedStays(s, Next(s, skeleton, e), skeleton)
  {
    forall c, v | Sealed(s, skeleton, c, v)
      ensures Sealed(Next(s, skeleton, e), skeleton, c, v)
    {
      NextSealed(s, skeleton, e, c, v);
    }
  }

  lemma SoundMoves(s: State, t: State, skeleton: seq<Slot>, q: Publisher)
    requires Sound(s, skeleton, q) && Grows(s, t) && SealedStays(s, t, skeleton)
    ensures Sound(t, skeleton, q)
  {
  }

  lemma {:induction false} DocsInOrder(s: State, skeleton: seq<Slot>, config: nat, version: nat)
    requires HasStages(s, skeleton, config, version)
    ensures var docs := StageDocs(s, skeleton, config, version);
            && |docs| == |skeleton|
            && forall i :: 0 <= i < |docs| ==> docs[i] == s.stages[DefId(config, version, skeleton[i].key)]
  {
    if skeleton != [] {
      var rest := skeleton[1..];
      assert forall i :: 0 <= i < |rest| ==> rest[i] == skeleton[i + 1];
      DocsInOrder(s, rest, config, version);
    }
  }

  lemma FitsSlot(skeleton: seq<Slot>, d: Stage, i: nat)
    requires Skeletal(skeleton) && i < |skeleton| && Fits(skeleton, d)
    requires d.key == skeleton[i].key || d.order == skeleton[i].order
    ensures skeleton[i] == Slot(d.key, d.order)
  {
    var j :| 0 <= j < |skeleton| && skeleton[j] == Slot(d.key, d.order);
    assert j == i;
  }

  /** What is read back for a complete version is its stages, every one of them, sorted by order. */
  lemma DocsLaid(s: State, skeleton: seq<Slot>, config: nat, version: nat)
    requires Skeletal(skeleton) && Documents(s, skeleton) && HasStages(s, skeleton, config, version)
    ensures var docs := StageDocs(s, skeleton, config, version);
            && Laid(skeleton, docs) && StrictlyOrdered(docs)
            && forall id :: id in s.stages && id.config == config && id.version == version ==> s.stages[id] in docs
  {
    DocsInOrder(s, skeleton, config, version);
    var docs := StageDocs(s, skeleton, config, version);
    forall i | 0 <= i < |docs|
      ensures skeleton[i] == Slot(docs[i].key, docs[i].order)
    {
      FitsSlot(skeleton, docs[i], i);
    }
    forall id | id in s.stages && id.config == config && id.version == version
      ensures s.stages[id] in docs
    {
      var i :| 0 <= i < |skeleton| && skeleton[i] == Slot(s.stages[id].key, s.stages[id].order);
      assert id == DefId(config, version, skeleton[i].key);
      assert docs[i] == s.stages[id];
    }
  }

  /** The skeleton survives every edit and every change of shape. */
  lemma NewStagesLaid(skeleton: seq<Slot>, current: seq<Stage>, payload: Payload, catalog: Catalog, shape: Shape)
    requires Skeletal(skeleton) && Laid(skeleton, current)
    ensures Laid(skeleton, NewStages(current, payload, catalog, shape))
  {
    var edited := Edited(current, payload.edits, catalog);
    assert Laid(skeleton, edited) && StrictlyOrdered(edited);
    forall i | 0 <= i < |edited|
      ensures var out := ConcurrentVariant(edited);
              |out| == |edited| && skeleton[i] == Slot(out[i].key, out[i].order)
    {
      VariantPreserves(edited, i);
    }
    OrderedStays(edited);
  }

  lemma CoverByRules(stages: seq<Stage>, keys: seq<string>, catalog: Catalog, tuning: map<string, int>)
    requires ListsOnce(keys, AttachedKeys(stages)) && forall i :: 0 <= i < |keys| ==> keys[i] in catalog
    ensures RulesCover(stages, RulesFor(keys, catalog, tuning))
  {
    var rules := RulesFor(keys, catalog, tuning);
    forall i, key | 0 <= i < |stages| && key in stages[i].qualityGates
      ensures exists j :: 0 <= j < |rules| && rules[j].key == key
    {
      var k :| 0 <= k < |stages[i].qualityGates| && stages[i].qualityGates[k] == key;
      assert key in AttachedKeys(stages) && key in keys;
      var j :| 0 <= j < |keys| && keys[j] == key;
      assert rules[j].key == key;
    }
  }

  lemma DraftedSound(s: State, skeleton: seq<Slot>, q: Publisher, catalog: Catalog, keys: seq<string>)
    requires Skeletal(skeleton) && Documents(s, skeleton) && q.phase.KnowsVersion? && Sound(s, skeleton, q)
    ensures Sound(s, skeleton, q.(phase := Drafted(s, skeleton, q, catalog, keys)))
  {
    var phase := Drafted(s, skeleton, q, catalog, keys);
    if phase.Writing? {
      var current := StageDocs(s, skeleton, q.payload.config, q.phase.base);
      DocsLaid(s, skeleton, q.payload.config, q.phase.base);
      NewStagesLaid(skeleton, current, q.payload, catalog, q.phase.shape);
      CoverByRules(phase.stages, keys, catalog, q.payload.tuning);
    }
  }

  lemma ThoughtSound(s: State, skeleton: seq<Slot>, e: Event)
    requires Inv(s, skeleton) && Thinks(e) && Enabled(s, e)
    ensures Sound(s, skeleton, s.publishers[e.p].(phase := Thought(s, skeleton, e)))
    ensures !Started(s.publishers[e.p].(phase := Thought(s, skeleton, e)))
  {
    assert Sound(s, skeleton, s.publishers[e.p]);
    if e.Draft? {
      DraftedSound(s, skeleton, s.publishers[e.p], e.catalog, e.keys);
    }
  }

  lemma ProgressByStage(s: State, t: State, config: nat, w: Phase)
    requires w.Writing? && w.written < |w.stages| && Progress(s, config, w) && Grows(s, t)
    requires StageWritten(t, config, w.target, w.stages[w.written])
    ensures Progress(t, config, w.(written := w.written + 1))
  {
    forall i | 0 <= i < w.written
      ensures StageWritten(t, config, w.target, w.stages[i])
    {
      assert StageWritten(s, config, w.target, w.stages[i]);
    }
  }

  lemma ProgressByRule(s: State, t: State, config: nat, w: Phase)
    requires w.Writing? && |w.stages| <= w.written < |w.stages| + |w.rules| && Progress(s, config, w) && Grows(s, t)
    requires RuleWritten(t, config, w.target, w.rules[w.written - |w.stages|])
    ensures Progress(t, config, w.(written := w.written + 1))
  {
    forall i | 0 <= i < |w.stages|
      ensures StageWritten(t, config, w.target, w.stages[i])
    {
      assert StageWritten(s, config, w.target, w.stages[i]);
    }
    forall j | 0 <= j < |w.rules| && j + |w.stages| < w.written
      ensures RuleWritten(t, config, w.target, w.rules[j])
    {
      assert RuleWritten(s, config, w.target, w.rules[j]);
    }
  }

  lemma StageUnderway(s: State, skeleton: seq<Slot>, p: nat)
    requires p < |s.publishers| && s.publishers[p].phase.Writing? && Underway(s, skeleton, s.publishers[p])
    requires s.publishers[p].phase.written < |s.publishers[p].phase.stages|
    ensures Sound(WriteStage(s, p), skeleton, WriteStage(s, p).publishers[p])
  {
    var q, t := s.publishers[p], WriteStage(s, p);
    if t.publishers[p].phase.Writing? {
      assert Grows(s, t);
      ProgressByStage(s, t, q.payload.config, q.phase);
    }
  }

  lemma RuleUnderway(s: State, skeleton: seq<Slot>, p: nat)
    requires p < |s.publishers| && s.publishers[p].phase.Writing? && Underway(s, skeleton, s.publishers[p])
    requires 0 <= s.publishers[p].phase.written - |s.publishers[p].phase.stages| < |s.publishers[p].phase.rules|
    ensures Sound(WriteRule(s, p), skeleton, WriteRule(s, p).publishers[p])
  {
    var q, t := s.publishers[p], WriteRule(s, p);
    if t.publishers[p].phase.Writing? {
      assert Grows(s, t);
      ProgressByRule(s, t, q.payload.config, q.phase);
    }
  }

  lemma WriteSound(s: State, skeleton: seq<Slot>, p: nat)
    requires p < |s.publishers| && s.publishers[p].phase.Writing? && Underway(s, skeleton, s.publishers[p])
    ensures Sound(WriteStep(s, p), skeleton, WriteStep(s, p).publishers[p])
  {
    var w := s.publishers[p].phase;
    if w.written < |w.stages| {
      StageUnderway(s, skeleton, p);
    } else if w.written < |w.stages| + |w.rules| {
      RuleUnderway(s, skeleton, p);
    }
  }

  lemma AdoptedComplete(s: State, skeleton: seq<Slot>, q: Publisher)
    requires Skeletal(skeleton) && Documents(s, skeleton) && Ready(q) && Underway(s, skeleton, q)
    ensures Complete(s, skeleton, q.payload.config, q.phase.target)
  {
    var config, w := q.payload.config, q.phase;
    forall i | 0 <= i < |skeleton|
      ensures DefId(config, w.target, skeleton[i].key) in s.stages
    {
      assert StageWritten(s, config, w.target, w.stages[i]);
    }
    forall id, key | id in s.stages && id.config == config && id.version == w.target
                     && key in s.stages[id].qualityGates
      ensures DefId(config, w.target, key) in s.rules
    {
      var i :| 0 <= i < |skeleton| && skeleton[i] == Slot(s.stages[id].key, s.stages[id].order);
      assert StageWritten(s, config, w.target, w.stages[i]);
      assert id == DefId(config, w.target, w.stages[i].key);
      var j :| 0 <= j < |w.rules| && w.rules[j].key == key;
      assert RuleWritten(s, config, w.target, w.rules[j]);
    }
  }

  lemma AdoptedSealed(s: State, skeleton: seq<Slot>, p: nat)
    requires Inv(s, skeleton) && p < |s.publishers| && Ready(s.publishers[p])
    ensures Sealed(AdoptStep(s, p), skeleton, s.publishers[p].payload.config, s.publishers[p].phase.target)
  {
    var q, t := s.publishers[p], AdoptStep(s, p);
    assert Sound(s, skeleton, q);
    AdoptedComplete(s, skeleton, q);
    forall o | 0 <= o < |t.publishers| && Midway(t.publishers[o])
      ensures !(t.publishers[o].payload.config == q.payload.config && t.publishers[o].phase.target == q.phase.target)
    {
      assert o != p && t.publishers[o] == s.publishers[o] && Started(q) && Started(s.publishers[o]);
      assert !SameTarget(s.publishers[if o < p then o else p], s.publishers[if o < p then p else o]);
    }
  }

  /** A started publish has put the first stage of its version in place. */
  lemma StartedOccupies(s: State, skeleton: seq<Slot>, q: Publisher)
    requires Skeletal(skeleton) && Sound(s, skeleton, q) && Started(q)
    ensures DefId(q.payload.config, q.phase.target, skeleton[0].key) in s.stages
  {
    if q.phase.Writing? {
      assert StageWritten(s, q.payload.config, q.phase.target, q.phase.stages[0]);
    }
  }

  lemma WriteOutcome(s: State, p: nat)
    requires p < |s.publishers| && s.publishers[p].phase.Writing?
    ensures var q, t := s.publishers[p], WriteStep(s, p);
            && t.publishers == s.publishers[p := t.publishers[p]]
            && (t.publishers[p] == q || t.publishers[p].phase.Stopped? || t.publishers[p] == Advanced(q))
            && (q.phase.written == 0 && q.phase.stages != [] && !t.publishers[p].phase.Stopped? ==>
              DefId(q.payload.config, q.phase.target, q.phase.stages[0].key) !in s.stages)
  {
    assert s.publishers[p := s.publishers[p]] == s.publishers;
  }

  lemma WriteExclusive(s: State, skeleton: seq<Slot>, p: nat)
    requires Inv(s, skeleton) && p < |s.publishers| && s.publishers[p].phase.Writing?
    ensures Exclusive(WriteStep(s, p))
  {
    var q, t := s.publishers[p], WriteStep(s, p);
    WriteOutcome(s, p);
    if Started(t.publishers[p]) && !Started(q) {
      assert Sound(s, skeleton, q);
      forall o | 0 <= o < |s.publishers| && o != p && Started(s.publishers[o])
        ensures !SameTarget(s.publishers[o], t.publishers[p])
      {
        StartedOccupies(s, skeleton, s.publishers[o]);
      }
    }
    ExclusiveMoves(s, t, p);
  }

  lemma ExclusiveMoves(s: State, t: State, p: nat)
    requires Exclusive(s) && p < |s.publishers| && |t.publishers| == |s.publishers|
    requires t.publishers == s.publishers[p := t.publishers[p]]
    requires Started(t.publishers[p]) ==>
      || (Started(s.publishers[p]) && SameTarget(s.publishers[p], t.publishers[p]))
      || (forall o :: 0 <= o < |s.publishers| && o != p && Started(s.publishers[o]) ==>
        !SameTarget(s.publishers[o], t.publishers[p]))
    ensures Exclusive(t)
  {
  }

  lemma NextExclusive(s: State, skeleton: seq<Slot>, e: Event)
    requires Inv(s, skeleton) && Enabled(s, e)
    ensures Exclusive(Next(s, skeleton, e))
  {
    var t := Next(s, skeleton, e);
    if Thinks(e) {
      ThoughtSound(s, skeleton, e);
      ExclusiveMoves(s, t, e.p);
    } else if e.WriteNext? {
      WriteExclusive(s, skeleton, e.p);
    } else if e.Adopt? {
      assert Sound(s, skeleton, s.publishers[e.p]);
      ExclusiveMoves(s, t, e.p);
    }
  }

  lemma AllSoundMove(s: State, t: State, skeleton: seq<Slot>)
    requires Publishers(s, skeleton) && Grows(s, t) && SealedStays(s, t, skeleton)
    ensures forall o :: 0 <= o < |s.publishers| ==> Sound(t, skeleton, s.publishers[o])
  {
    forall o | 0 <= o < |s.publishers|
      ensures Sound(t, skeleton, s.publishers[o])
    {
      SoundMoves(s, t, skeleton, s.publishers[o]);
    }
  }

  lemma PublishersMove(s: State, t: State, skeleton: seq<Slot>, p: nat)
    requires p < |s.publishers| && |t.publishers| == |s.publishers|
    requires t.publishers == s.publishers[p := t.publishers[p]] && Sound(t, skeleton, t.publishers[p])
    requires forall o :: 0 <= o < |s.publishers| ==> Sound(t, skeleton, s.publishers[o])
    ensures Publishers(t, skeleton)
  {
  }

  /** A publisher that moves is the only one that does, and moves soundly. */
  lemma MoverSound(s: State, skeleton: seq<Slot>, e: Event)
    requires Inv(s, skeleton) && Enabled(s, e) && (Thinks(e) || e.WriteNext? || e.Adopt?)
    requires Grows(s, Next(s, skeleton, e)) && SealedStays(s, Next(s, skeleton, e), skeleton)
    ensures var t := Next(s, skeleton, e);
            && e.p < |s.publishers| && |t.publishers| == |s.publishers|
            && t.publishers == s.publishers[e.p := t.publishers[e.p]] && Sound(t, skeleton, t.publishers[e.p])
  {
    if Thinks(e) {
      var t := Next(s, skeleton, e);
      ThoughtSound(s, skeleton, e);
      SoundMoves(s, t, skeleton, t.publishers[e.p]);
    } else if e.WriteNext? {
      WriteSound(s, skeleton, e.p);
      WriteOutcome(s, e.p);
    } else {
      AdoptedSealed(s, skeleton, e.p);
    }
  }

  lemma NextPublishers(s: State, skeleton: seq<Slot>, e: Event)
    requires Inv(s, skeleton) && Enabled(s, e)
    ensures Publishers(Next(s, skeleton, e), skeleton)
  {
    var t := Next(s, skeleton, e);
    NextGrows(s, skeleton, e);
    NextSealedStays(s, skeleton, e);
    AllSoundMove(s, t, skeleton);
    if Thinks(e) || e.WriteNext? || e.Adopt? {
      MoverSound(s, skeleton, e);
      PublishersMove(s, t, skeleton, e.p);
    } else {
      NextOthers(s, skeleton, e);
    }
  }

  lemma NextOthers(s: State, skeleton: seq<Slot>, e: Event)
    requires Enabled(s, e) && (e.Begin? || e.Clone? || e.StartProject?)
    ensures var t := Next(s, skeleton, e).publishers;
            t == s.publishers || (e.Begin? && t == s.publishers + [Publisher(e.payload, Asked)])
  {
  }

  lemma CopiedAre(s: State, base: nat, version: nat, id: nat)
    ensures forall d :: d in CopiedStages(s, base, version, id) <==>
      d == DefId(id, 1, d.key) && DefId(base, version, d.key) in s.stages
    ensures forall d :: d in CopiedRules(s, base, version, id) <==>
      d == DefId(id, 1, d.key) && DefId(base, version, d.key) in s.rules
  {
    forall d: DefId | d == DefId(id, 1, d.key) && DefId(base, version, d.key) in s.stages
      ensures d in CopiedStages(s, base, version, id)
    {
      var e := DefId(base, version, d.key);
      assert e in s.stages && e.config == base && e.version == version && d == DefId(id, 1, e.key);
    }
    forall d: DefId | d == DefId(id, 1, d.key) && DefId(base, version, d.key) in s.rules
      ensures d in CopiedRules(s, base, version, id)
    {
      var e := DefId(base, version, d.key);
      assert e in s.rules && e.config == base && e.version == version && d == DefId(id, 1, e.key);
    }
  }

  /** The copy reads exactly like the version it was taken from. */
  lemma CloneReads(s: State, skeleton: seq<Slot>, base: nat, id: nat, key: string)
    requires skeleton != [] && Documents(s, skeleton) && base in s.configs && id !in s.configs
    ensures var t, from, to := CloneStep(s, base, id), DefId(base, s.configs[base].current, key), DefId(id, 1, key);
            && (to in t.stages <==> from in s.stages) && (from in s.stages ==> t.stages[to] == s.stages[from])
            && (to in t.rules <==> from in s.rules) && (from in s.rules ==> t.rules[to] == s.rules[from])
  {
    CopiedAre(s, base, s.configs[base].current, id);
    var to := DefId(id, 1, key);
    assert to !in s.stages && to !in s.rules;
  }

  lemma CompleteMoves(s: State, t: State, skeleton: seq<Slot>, base: nat, version: nat, id: nat, copy: nat)
    requires Complete(s, skeleton, base, version)
    requires forall key ::
      (DefId(id, copy, key) in t.stages <==> DefId(base, version, key) in s.stages)
      && (DefId(base, version, key) in s.stages && DefId(id, copy, key) in t.stages ==>
        t.stages[DefId(id, copy, key)] == s.stages[DefId(base, version, key)])
      && (DefId(base, version, key) in s.rules ==> DefId(id, copy, key) in t.rules)
    ensures Complete(t, skeleton, id, copy)
  {
    forall d, key | d in t.stages && d.config == id && d.version == copy && key in t.stages[d].qualityGates
      ensures DefId(id, copy, key) in t.rules
    {
      assert d == DefId(id, copy, d.key);
    }
  }

  lemma CloneComplete(s: State, skeleton: seq<Slot>, base: nat, id: nat)
    requires skeleton != [] && Documents(s, skeleton) && base in s.configs && id !in s.configs
    requires Complete(s, skeleton, base, s.configs[base].current)
    ensures Complete(CloneStep(s, base, id), skeleton, id, 1)
  {
    forall key: string {
      CloneReads(s, skeleton, base, id, key);
    }
    CompleteMoves(s, CloneStep(s, base, id), skeleton, base, s.configs[base].current, id, 1);
  }

  lemma CloneQuiet(s: State, skeleton: seq<Slot>, base: nat, id: nat)
    requires Publishers(s, skeleton) && base in s.configs && id !in s.configs
    ensures Quiet(CloneStep(s, base, id), id, 1)
  {
    forall p | 0 <= p < |s.publishers| && Midway(s.publishers[p])
      ensures s.publishers[p].payload.config in s.configs
    {
      assert Sound(s, skeleton, s.publishers[p]);
    }
  }

  lemma CloneStageDocuments(s: State, skeleton: seq<Slot>, base: nat, id: nat, d: DefId)
    requires skeleton != [] && Documents(s, skeleton) && base in s.configs && id !in s.configs
    requires d in CloneStep(s, base, id).stages
    ensures var t := CloneStep(s, base, id);
            d.config in t.configs && t.stages[d].key == d.key && Fits(skeleton, t.stages[d])
  {
    if d !in s.stages {
      CopiedAre(s, base, s.configs[base].current, id);
      CloneReads(s, skeleton, base, id, d.key);
    } else {
      CloneStages(s, base, id);
    }
  }

  lemma CloneRuleDocuments(s: State, skeleton: seq<Slot>, base: nat, id: nat, d: DefId)
    requires skeleton != [] && Documents(s, skeleton) && base in s.configs && id !in s.configs
    requires HasStages(s, skeleton, base, s.configs[base].current) && d in CloneStep(s, base, id).rules
    ensures var t := CloneStep(s, base, id);
            d.config in t.configs && DefId(d.config, d.version, skeleton[0].key) in t.stages
  {
    CloneStages(s, base, id);
    if d !in s.rules {
      CopiedAre(s, base, s.configs[base].current, id);
      assert DefId(base, s.configs[base].current, skeleton[0].key) in s.stages;
      CloneReads(s, skeleton, base, id, skeleton[0].key);
    }
  }

  lemma CloneDocuments(s: State, skeleton: seq<Slot>, base: nat, id: nat)
    requires skeleton != [] && Documents(s, skeleton) && base in s.configs && id !in s.configs
    requires HasStages(s, skeleton, base, s.configs[base].current)
    ensures Documents(CloneStep(s, base, id), skeleton)
  {
    var t := CloneStep(s, base, id);
    forall d | d in t.stages
      ensures d.config in t.configs && t.stages[d].key == d.key && Fits(skeleton, t.stages[d])
    {
      CloneStageDocuments(s, skeleton, base, id, d);
    }
    forall d | d in t.rules
      ensures d.config in t.configs && DefId(d.config, d.version, skeleton[0].key) in t.stages
    {
      CloneRuleDocuments(s, skeleton, base, id, d);
    }
  }

  lemma WriteDocuments(s: State, skeleton: seq<Slot>, p: nat)
    requires skeleton != [] && Documents(s, skeleton)
    requires p < |s.publishers| && s.publishers[p].phase.Writing? && Underway(s, skeleton, s.publishers[p])
    ensures Documents(WriteStep(s, p), skeleton)
  {
    var config, w := s.publishers[p].payload.config, s.publishers[p].phase;
    if w.written < |w.stages| {
      assert Fits(skeleton, w.stages[w.written]);
    } else {
      assert StageWritten(s, config, w.target, w.stages[0]);
    }
  }

  lemma AdoptDocuments(s: State, skeleton: seq<Slot>, p: nat)
    requires skeleton != [] && Documents(s, skeleton) && p < |s.publishers| && Ready(s.publishers[p])
    ensures Documents(AdoptStep(s, p), skeleton)
  {
  }

  lemma DocumentsMove(s: State, t: State, skeleton: seq<Slot>)
    requires skeleton != [] && Documents(s, skeleton)
    requires t.stages == s.stages && t.rules == s.rules && t.configs == s.configs
    ensures Documents(t, skeleton)
  {
  }

  lemma DocumentsNext(s: State, skeleton: seq<Slot>, e: Event)
    requires skeleton != [] && Documents(s, skeleton) && Enabled(s, e)
    requires e.Clone? ==> HasStages(s, skeleton, e.base, s.configs[e.base].current)
    requires e.WriteNext? ==> Underway(s, skeleton, s.publishers[e.p])
    ensures Documents(Next(s, skeleton, e), skeleton)
  {
    if e.Clone? {
      CloneDocuments(s, skeleton, e.base, e.id);
    } else if e.WriteNext? {
      WriteDocuments(s, skeleton, e.p);
    } else if e.Adopt? {
      AdoptDocuments(s, skeleton, e.p);
    } else {
      DocumentsMove(s, Next(s, skeleton, e), skeleton);
    }
  }

  lemma NextDocuments(s: State, skeleton: seq<Slot>, e: Event)
    requires Inv(s, skeleton) && Enabled(s, e)
    ensures Documents(Next(s, skeleton, e), skeleton)
  {
    if e.WriteNext? {
      assert Sound(s, skeleton, s.publishers[e.p]);
    }
    DocumentsNext(s, skeleton, e);
  }

  lemma HoldersMove(s: State, t: State, skeleton: seq<Slot>)
    requires Holders(s, skeleton) && SealedStays(s, t, skeleton)
    requires forall c :: c in t.configs ==>
      (c in s.configs && t.configs[c] == s.configs[c]) || Sealed(t, skeleton, c, t.configs[c].current)
    requires forall k :: 0 <= k < |t.pins| ==>
      (k < |s.pins| && t.pins[k] == s.pins[k]) || Sealed(t, skeleton, t.pins[k].config, t.pins[k].version)
    ensures Holders(t, skeleton)
  {
  }

  lemma NewHolder(s: State, skeleton: seq<Slot>, e: Event)
    requires Inv(s, skeleton) && Enabled(s, e)
    ensures e.Clone? ==> Sealed(CloneStep(s, e.base, e.id), skeleton, e.id, 1)
    ensures e.Adopt? ==>
      Sealed(AdoptStep(s, e.p), skeleton, s.publishers[e.p].payload.config, s.publishers[e.p].phase.target)
    ensures e.StartProject? ==> Sealed(s, skeleton, e.config, s.configs[e.config].current)
  {
    if e.Clone? {
      CloneComplete(s, skeleton, e.base, e.id);
      CloneQuiet(s, skeleton, e.base, e.id);
    } else if e.Adopt? {
      AdoptedSealed(s, skeleton, e.p);
    }
  }

  lemma NextHolders(s: State, skeleton: seq<Slot>, e: Event)
    requires Inv(s, skeleton) && Enabled(s, e)
    ensures Holders(Next(s, skeleton, e), skeleton)
  {
    var t := Next(s, skeleton, e);
    NextSealedStays(s, skeleton, e);
    NewHolder(s, skeleton, e);
    HolderChanges(s, skeleton, e);
    HoldersMove(s, t, skeleton);
  }

  lemma HolderChanges(s: State, skeleton: seq<Slot>, e: Event)
    requires Enabled(s, e)
    ensures var t := Next(s, skeleton, e);
            && (t.configs == s.configs
                || (e.Clone? && t.configs == s.configs[e.id := Config(1, s.configs[e.base].shape)])
                || (e.Adopt? && t.configs == s.configs[s.publishers[e.p].payload.config :=
                      Config(s.publishers[e.p].phase.target, s.publishers[e.p].phase.newShape)]))
            && (t.pins == s.pins
                || (e.StartProject? && t.pins == s.pins + [Pin(e.config, s.configs[e.config].current)]
                    && t.configs == s.configs && t.stages == s.stages))
  {
  }

  lemma NextKeepsInv(s: State, skeleton: seq<Slot>, e: Event)
    requires Inv(s, skeleton)
    ensures Inv(Next(s, skeleton, e), skeleton)
  {
    if Enabled(s, e) {
      NextDocuments(s, skeleton, e);
      NextHolders(s, skeleton, e);
      NextPublishers(s, skeleton, e);
      NextExclusive(s, skeleton, e);
    }
  }

  lemma {:induction false} RunKeepsInv(s: State, skeleton: seq<Slot>, events: seq<Event>)
    requires Inv(s, skeleton)
    ensures Inv(Run(s, skeleton, events), skeleton)
  {
    if events != [] {
      var n := |events| - 1;
      RunKeepsInv(s, skeleton, events[..n]);
      NextKeepsInv(Run(s, skeleton, events[..n]), skeleton, events[n]);
    }
  }

  lemma SeededInv(s: State, skeleton: seq<Slot>)
    requires Seeded(s, skeleton)
    ensures Inv(s, skeleton)
  {
  }

  // ---- what a publish may change ---------------------------------------------------------------------------

  lemma {:induction false} OnlyAppend(a: seq<Gate>, b: seq<Gate>)
    ensures OnlyDependencyGates(a + b) == OnlyDependencyGates(a) + OnlyDependencyGates(b)
  {
    if a == [] {
      assert a + b == b;
    } else {
      OnlyAppend(a[1..], b);
      var head := if a[0].kind.DependencyGate? then [a[0]] else [];
      assert OnlyDependencyGates(a + b) == head + OnlyDependencyGates(a[1..] + b) by {
        assert (a + b)[0] == a[0] && (a + b)[1..] == a[1..] + b;
      }
      assert OnlyDependencyGates(a) == head + OnlyDependencyGates(a[1..]);
      GatesAssociate(head, OnlyDependencyGates(a[1..]), OnlyDependencyGates(b));
    }
  }

  lemma {:induction false} OnlyKeeps(gates: seq<Gate>)
    ensures OnlyDependencyGates(OnlyDependencyGates(gates)) == OnlyDependencyGates(gates)
    ensures WithoutDependencies(OnlyDependencyGates(gates)) == []
  {
    if gates != [] {
      OnlyKeeps(gates[1..]);
      var rest := OnlyDependencyGates(gates[1..]);
      if gates[0].kind.DependencyGate? {
        assert OnlyDependencyGates(gates)[1..] == rest;
      } else {
        assert OnlyDependencyGates(gates) == rest;
      }
    }
  }

  lemma {:induction false} DocumentsAreNoDependencies(gates: seq<Gate>)
    requires forall i :: 0 <= i < |gates| ==> gates[i].kind.DocumentGate?
    ensures OnlyDependencyGates(gates) == [] && WithoutDependencies(gates) == gates
  {
    if gates != [] {
      DocumentsAreNoDependencies(gates[1..]);
    }
  }

  lemma {:induction false} AllAttachable(gates: seq<string>, catalog: Catalog)
    requires forall k :: 0 <= k < |gates| ==> gates[k] in catalog
    ensures Attachable(gates, catalog) == gates
  {
    if gates != [] {
      AllAttachable(gates[1..], catalog);
    }
  }

  lemma EditedStage(current: seq<Stage>, edits: map<string, Edit>, catalog: Catalog, i: nat)
    requires i < |current|
    requires forall key, k :: key in edits && 0 <= k < |edits[key].gates| ==> edits[key].gates[k] in catalog
    ensures var was, now := current[i], Edited(current, edits, catalog)[i];
            && OnlyDependencyGates(now.entryGates) == OnlyDependencyGates(was.entryGates)
            && (if was.key in edits then
                  WithoutDependencies(now.entryGates) == DocumentGates(edits[was.key].documents)
                  && now.qualityGates == edits[was.key].gates
                else now == was)
  {
    if current[i].key in edits {
      var edit := edits[current[i].key];
      var kept := OnlyDependencyGates(current[i].entryGates);
      OnlyAppend(DocumentGates(edit.documents), kept);
      WithoutAppend(DocumentGates(edit.documents), kept);
      OnlyKeeps(current[i].entryGates);
      DocumentsAreNoDependencies(DocumentGates(edit.documents));
      AllAttachable(edit.gates, catalog);
    }
  }

  /** A publish changes the documents and gates the payload names, and dependencies only with the shape. */
  lemma PublishChangesOnlyEdits(
      skeleton: seq<Slot>, current: seq<Stage>, payload: Payload, catalog: Catalog, shape: Shape, i: nat)
    requires Skeletal(skeleton) && Laid(skeleton, current) && i < |current|
    requires forall key, k :: key in payload.edits && 0 <= k < |payload.edits[key].gates| ==>
      payload.edits[key].gates[k] in catalog
    ensures var stages, was := NewStages(current, payload, catalog, shape), current[i];
            && |stages| == |current| && stages[i].key == was.key && stages[i].order == was.order
            && stages[i].checklist == was.checklist
            && (if was.key in payload.edits then
                  WithoutDependencies(stages[i].entryGates) == DocumentGates(payload.edits[was.key].documents)
                  && stages[i].qualityGates == payload.edits[was.key].gates
                else
                  WithoutDependencies(stages[i].entryGates) == WithoutDependencies(was.entryGates)
                  && stages[i].qualityGates == was.qualityGates)
    ensures payload.shape.None? || payload.shape.value == shape || payload.shape.value.Sequential? ==>
      OnlyDependencyGates(NewStages(current, payload, catalog, shape)[i].entryGates)
      == OnlyDependencyGates(current[i].entryGates)
    ensures payload.shape == Some(Concurrent) && shape.Sequential? ==>
      OnlyDependencyGates(NewStages(current, payload, catalog, shape)[i].entryGates)
      == NewDependencies(current, i)
  {
    var edited := Edited(current, payload.edits, catalog);
    assert StrictlyOrdered(edited);
    EditedStage(current, payload.edits, catalog, i);
    VariantPreserves(edited, i);
    OrderedStays(edited);
    RewiredDependencies(edited, i);
    SameNewDependencies(current, edited, i);
  }

  lemma RewiredDependencies(stages: seq<Stage>, i: nat)
    requires i < |stages|
    ensures OnlyDependencyGates(Rewired(stages, i).entryGates) == NewDependencies(stages, i)
  {
    NewDependenciesAre(stages, i);
    OnlyAppend(WithoutDependencies(stages[i].entryGates), NewDependencies(stages, i));
    AllDependencies(NewDependencies(stages, i));
    NoneLeft(stages[i].entryGates);
  }

  lemma {:induction false} AllDependencies(gates: seq<Gate>)
    requires forall i :: 0 <= i < |gates| ==> gates[i].kind.DependencyGate?
    ensures OnlyDependencyGates(gates) == gates
  {
    if gates != [] {
      AllDependencies(gates[1..]);
    }
  }

  lemma {:induction false} NoneLeft(gates: seq<Gate>)
    ensures OnlyDependencyGates(WithoutDependencies(gates)) == []
  {
    if gates != [] {
      NoneLeft(gates[1..]);
      var rest := WithoutDependencies(gates[1..]);
      if gates[0].kind.DependencyGate? {
        assert WithoutDependencies(gates) == rest;
      } else {
        assert WithoutDependencies(gates)[1..] == rest;
      }
    }
  }

  lemma SameNewDependencies(a: seq<Stage>, b: seq<Stage>, i: nat)
    requires |a| == |b| && i < |a| && forall j :: 0 <= j < |a| ==> a[j].key == b[j].key
    ensures NewDependencies(a, i) == NewDependencies(b, i)
  {
    MiddleGatesSame(a, b, i);
  }

  // ---- what holds in every run -----------------------------------------------------------------------------

  /** However the publishers interleave or stop, no two of them ever complete one version of a configuration. */
  lemma OneWinnerPerVersion(s: State, skeleton: seq<Slot>, events: seq<Event>, p: nat, q: nat)
    requires Seeded(s, skeleton) && p < q < |Run(s, skeleton, events).publishers|
    requires Run(s, skeleton, events).publishers[p].phase.Adopted?
    requires Run(s, skeleton, events).publishers[q].phase.Adopted?
    ensures var a, b := Run(s, skeleton, events).publishers[p], Run(s, skeleton, events).publishers[q];
            a.payload.config == b.payload.config ==> a.phase.target != b.phase.target
  {
    SeededInv(s, skeleton);
    RunKeepsInv(s, skeleton, events);
    var a, b := Run(s, skeleton, events).publishers[p], Run(s, skeleton, events).publishers[q];
    assert Started(a) && Started(b) && !SameTarget(a, b);
  }

  /** A publisher that completed a version is remembered as such for good. */
  lemma AdoptionLasts(s: State, skeleton: seq<Slot>, e: Event, p: nat)
    requires p < |s.publishers| && s.publishers[p].phase.Adopted?
    ensures p < |Next(s, skeleton, e).publishers| && Next(s, skeleton, e).publishers[p] == s.publishers[p]
  {
    if e.WriteNext? && Enabled(s, e) {
      WriteOutcome(s, e.p);
    }
  }

  /** The current version of every configuration is always complete. */
  lemma CurrentIsComplete(s: State, skeleton: seq<Slot>, events: seq<Event>, config: nat)
    requires Seeded(s, skeleton) && config in Run(s, skeleton, events).configs
    ensures var t := Run(s, skeleton, events);
            Complete(t, skeleton, config, t.configs[config].current)
  {
    SeededInv(s, skeleton);
    RunKeepsInv(s, skeleton, events);
  }

  /** A completed version as it was, amid whatever else was added. */
  ghost predicate Preserved(s: State, t: State, skeleton: seq<Slot>, config: nat, version: nat) {
    Grows(s, t) && Sealed(t, skeleton, config, version) && SameVersion(s, t, config, version)
  }

  lemma PreservedOnwards(s: State, t: State, u: State, skeleton: seq<Slot>, config: nat, version: nat)
    requires Preserved(s, t, skeleton, config, version) && Preserved(t, u, skeleton, config, version)
    ensures Preserved(s, u, skeleton, config, version)
  {
  }

  lemma NextPreserves(s: State, skeleton: seq<Slot>, e: Event, config: nat, version: nat)
    requires Inv(s, skeleton) && Sealed(s, skeleton, config, version)
    ensures Preserved(s, Next(s, skeleton, e), skeleton, config, version)
  {
    NextGrows(s, skeleton, e);
    NextSealed(s, skeleton, e, config, version);
  }

  lemma {:induction false} RunPreserves(s: State, skeleton: seq<Slot>, events: seq<Event>, config: nat, version: nat)
    requires Inv(s, skeleton) && Sealed(s, skeleton, config, version)
    ensures Preserved(s, Run(s, skeleton, events), skeleton, config, version)
  {
    if events != [] {
      var n := |events| - 1;
      var before := Run(s, skeleton, events[..n]);
      RunKeepsInv(s, skeleton, events[..n]);
      RunPreserves(s, skeleton, events[..n], config, version);
      NextPreserves(before, skeleton, events[n], config, version);
      PreservedOnwards(s, before, Next(before, skeleton, events[n]), skeleton, config, version);
    }
  }

  /** Everything a project reads of its configuration: the stage list, and each gate rule. */
  ghost predicate SameReads(s: State, t: State, skeleton: seq<Slot>, config: nat, version: nat) {
    && StageDocs(t, skeleton, config, version) == StageDocs(s, skeleton, config, version)
    && forall key ::
      && (DefId(config, version, key) in t.rules <==> DefId(config, version, key) in s.rules)
      && (DefId(config, version, key) in s.rules && DefId(config, version, key) in t.rules ==>
        t.rules[DefId(config, version, key)] == s.rules[DefId(config, version, key)])
  }

  lemma {:induction false} DocsStay(s: State, t: State, skeleton: seq<Slot>, config: nat, version: nat)
    requires Grows(s, t) && HasStages(s, skeleton, config, version)
    ensures StageDocs(t, skeleton, config, version) == StageDocs(s, skeleton, config, version)
  {
    if skeleton != [] {
      assert forall i :: 0 <= i < |skeleton| - 1 ==> skeleton[1..][i] == skeleton[i + 1];
      DocsStay(s, t, skeleton[1..], config, version);
    }
  }

  lemma PreservedReads(s: State, t: State, skeleton: seq<Slot>, config: nat, version: nat)
    requires HasStages(s, skeleton, config, version) && Preserved(s, t, skeleton, config, version)
    ensures SameReads(s, t, skeleton, config, version)
  {
    DocsStay(s, t, skeleton, config, version);
  }

  /** A running project never sees its stages or gates move, whatever is published after it started. */
  lemma PinnedReadsConstant(s: State, skeleton: seq<Slot>, before: seq<Event>, after: seq<Event>, k: nat)
    requires Seeded(s, skeleton) && k < |Run(s, skeleton, before).pins|
    ensures var start := Run(s, skeleton, before);
            SameReads(start, Run(start, skeleton, after), skeleton, start.pins[k].config, start.pins[k].version)
  {
    SeededInv(s, skeleton);
    RunKeepsInv(s, skeleton, before);
    PinReads(Run(s, skeleton, before), skeleton, after, k);
  }

  lemma PinReads(s: State, skeleton: seq<Slot>, events: seq<Event>, k: nat)
    requires Inv(s, skeleton) && k < |s.pins|
    ensures SameReads(s, Run(s, skeleton, events), skeleton, s.pins[k].config, s.pins[k].version)
  {
    RunPreserves(s, skeleton, events, s.pins[k].config, s.pins[k].version);
    PreservedReads(s, Run(s, skeleton, events), skeleton, s.pins[k].config, s.pins[k].version);
  }

  // ---- a publish nobody races --------------------------------------------------------------------------------

  /** The version picked has no document at all when it is picked. */
  lemma FreshVersion(s: State, skeleton: seq<Slot>, config: nat, version: nat, key: string)
    requires skeleton != [] && Documents(s, skeleton) && version > Highest(s, config)
    ensures DefId(config, version, key) !in s.stages && DefId(config, version, key) !in s.rules
  {
    if DefId(config, version, key) in s.stages || DefId(config, version, key) in s.rules {
      var id := if DefId(config, version, key) in s.stages then DefId(config, version, key)
                else DefId(config, version, skeleton[0].key);
      assert id in s.stages && id.version in VersionsOf(s.stages, config);
      MaxIsUpper(VersionsOf(s.stages, config), version);
    }
  }

  /** What is still to be written has no document yet. */
  ghost predicate Ahead(s: State, q: Publisher)
    requires q.phase.Writing?
  {
    var config, w := q.payload.config, q.phase;
    && (forall i :: w.written <= i < |w.stages| ==> DefId(config, w.target, w.stages[i].key) !in s.stages)
    && (forall j :: 0 <= j < |w.rules| && w.written <= j + |w.stages| ==>
      DefId(config, w.target, w.rules[j].key) !in s.rules)
  }

  /** A publisher with everything it still has to write ahead of it. */
  ghost predicate Going(s: State, skeleton: seq<Slot>, p: nat) {
    && Skeletal(skeleton) && Documents(s, skeleton) && p < |s.publishers| && s.publishers[p].phase.Writing?
    && Underway(s, skeleton, s.publishers[p]) && Ahead(s, s.publishers[p])
  }

  lemma NoClash(s: State, skeleton: seq<Slot>, config: nat, version: nat, d: Stage)
    requires Skeletal(skeleton) && Documents(s, skeleton) && Fits(skeleton, d)
    requires DefId(config, version, d.key) !in s.stages
    ensures !Clashes(s, config, version, d)
  {
    var i :| 0 <= i < |skeleton| && skeleton[i] == Slot(d.key, d.order);
    forall id | id in s.stages && id.config == config && id.version == version
      ensures s.stages[id].order != d.order
    {
      if s.stages[id].order == d.order {
        FitsSlot(skeleton, s.stages[id], i);
      }
      assert s.stages[id].order == d.order ==> id == DefId(config, version, d.key);
    }
  }

  lemma StageGoesIn(s: State, skeleton: seq<Slot>, p: nat)
    requires Going(s, skeleton, p) && s.publishers[p].phase.written < |s.publishers[p].phase.stages|
    ensures WriteStage(s, p).publishers == s.publishers[p := Advanced(s.publishers[p])]
    ensures WriteStage(s, p).configs == s.configs && Ahead(WriteStage(s, p), Advanced(s.publishers[p]))
  {
    var q := s.publishers[p];
    var d := q.phase.stages[q.phase.written];
    assert skeleton[q.phase.written] == Slot(d.key, d.order);
    NoClash(s, skeleton, q.payload.config, q.phase.target, d);
  }

  lemma RuleGoesIn(s: State, skeleton: seq<Slot>, p: nat)
    requires Going(s, skeleton, p)
    requires 0 <= s.publishers[p].phase.written - |s.publishers[p].phase.stages| < |s.publishers[p].phase.rules|
    ensures WriteRule(s, p).publishers == s.publishers[p := Advanced(s.publishers[p])]
    ensures WriteRule(s, p).configs == s.configs && Ahead(WriteRule(s, p), Advanced(s.publishers[p]))
  {
  }

  lemma WriteGoesIn(s: State, skeleton: seq<Slot>, p: nat)
    requires Going(s, skeleton, p)
    requires s.publishers[p].phase.written < |s.publishers[p].phase.stages| + |s.publishers[p].phase.rules|
    ensures WriteStep(s, p).publishers == s.publishers[p := Advanced(s.publishers[p])]
    ensures WriteStep(s, p).configs == s.configs && Going(WriteStep(s, p), skeleton, p)
  {
    var w := s.publishers[p].phase;
    if w.written < |w.stages| {
      StageGoesIn(s, skeleton, p);
    } else {
      RuleGoesIn(s, skeleton, p);
    }
    WriteDocuments(s, skeleton, p);
    WriteSound(s, skeleton, p);
  }

  /** Writes of one publisher, with nobody else's in between. */
  ghost predicate OnlyWrites(states: seq<State>, p: nat) {
    forall i :: 0 <= i < |states| - 1 ==> Writes(states, p, i)
  }

  ghost predicate Writes(states: seq<State>, p: nat, i: nat)
    requires i + 1 < |states|
  {
    && p < |states[i].publishers| && states[i].publishers[p].phase.Writing?
    && states[i + 1] == WriteStep(states[i], p)
  }

  predicate AfterWrites(s: State, t: State, p: nat, n: nat)
    requires p < |s.publishers| && s.publishers[p].phase.Writing?
  {
    && t.configs == s.configs && p < |t.publishers|
    && t.publishers[p] == s.publishers[p].(phase := s.publishers[p].phase.(written := n))
  }

  lemma {:induction false} WritesGoIn(states: seq<State>, skeleton: seq<Slot>, p: nat, n: nat)
    requires OnlyWrites(states, p) && n < |states|
    requires Going(states[0], skeleton, p) && states[0].publishers[p].phase.written == 0
    requires n <= |states[0].publishers[p].phase.stages| + |states[0].publishers[p].phase.rules|
    ensures Going(states[n], skeleton, p) && AfterWrites(states[0], states[n], p, n)
  {
    if n > 0 {
      WritesGoIn(states, skeleton, p, n - 1);
      assert Writes(states, p, n - 1);
      WriteGoesIn(states[n - 1], skeleton, p);
    }
  }

  /** A drafted version is above the one it starts from, and nothing of it exists yet. */
  lemma DraftedIsFresh(s: State, skeleton: seq<Slot>, q: Publisher, catalog: Catalog, keys: seq<string>)
    requires Skeletal(skeleton) && Documents(s, skeleton) && q.phase.KnowsConfig? && Sound(s, skeleton, q)
    ensures var w := Drafted(s, skeleton, q.(phase := Picked(s, q)), catalog, keys);
            w.Writing? ==>
              && w.target > q.phase.base && w.target > Highest(s, q.payload.config) && w.written == 0
              && Underway(s, skeleton, q.(phase := w))
              && (forall id :: id in s.stages && id.config == q.payload.config ==> id.version < w.target)
              && (w.target == q.phase.base + 1
                  || exists id :: id in s.stages && id.config == q.payload.config && id.version + 1 == w.target)
              && (forall j :: 0 <= j < |w.rules| ==>
                    w.rules[j].key in catalog
                    && w.rules[j].content == (if w.rules[j].key in q.payload.tuning then q.payload.tuning[w.rules[j].key]
                                              else catalog[w.rules[j].key].content))
  {
    DraftedSound(s, skeleton, q.(phase := Picked(s, q)), catalog, keys);
    HighestIs(s, q.payload.config);
    DraftedRules(s, skeleton, q.(phase := Picked(s, q)), catalog, keys);
  }

  lemma DraftedRules(s: State, skeleton: seq<Slot>, q: Publisher, catalog: Catalog, keys: seq<string>)
    requires q.phase.KnowsVersion?
    ensures var w := Drafted(s, skeleton, q, catalog, keys);
            w.Writing? ==> forall j :: 0 <= j < |w.rules| ==>
              w.rules[j].key in catalog
              && w.rules[j].content == (if w.rules[j].key in q.payload.tuning then q.payload.tuning[w.rules[j].key]
                                        else catalog[w.rules[j].key].content)
  {
  }

  /** No stage has a higher version, and some stage has this one. */
  lemma HighestIs(s: State, config: nat)
    ensures forall id :: id in s.stages && id.config == config ==> id.version <= Highest(s, config)
    ensures Highest(s, config) == 0
            || exists id :: id in s.stages && id.config == config && id.version == Highest(s, config)
  {
    var numbers := VersionsOf(s.stages, config);
    forall id | id in s.stages && id.config == config
      ensures id.version <= Highest(s, config)
    {
      MaxIsUpper(numbers, id.version);
    }
    if numbers != {} {
      MaxIsAttained(numbers);
      var id :| id in s.stages && id.config == config && id.version == MaxOf(numbers);
      assert id.version == Highest(s, config);
    } else {
      assert Highest(s, config) == MaxOf({});
    }
  }

  lemma {:induction false} MaxIsAttained(numbers: set<nat>)
    requires numbers != {}
    ensures MaxOf(numbers) in numbers
  {
    var m :| m in numbers && MaxOf(numbers) == if m > MaxOf(numbers - {m}) then m else MaxOf(numbers - {m});
    if numbers - {m} != {} {
      MaxIsAttained(numbers - {m});
    } else {
      assert MaxOf(numbers - {m}) == 0;
    }
  }

  lemma StartsGoing(s: State, skeleton: seq<Slot>, p: nat)
    requires Skeletal(skeleton) && Documents(s, skeleton) && p < |s.publishers| && s.publishers[p].phase.Writing?
    requires Underway(s, skeleton, s.publishers[p])
    requires s.publishers[p].phase.target > Highest(s, s.publishers[p].payload.config)
    ensures Going(s, skeleton, p)
  {
    FreshIsAhead(s, skeleton, s.publishers[p]);
  }

  lemma EndsWhole(s: State, t: State, skeleton: seq<Slot>, p: nat)
    requires p < |s.publishers| && s.publishers[p].phase.Writing? && Going(t, skeleton, p)
    requires AfterWrites(s, t, p, |s.publishers[p].phase.stages| + |s.publishers[p].phase.rules|)
    ensures Ready(t.publishers[p])
    ensures Complete(t, skeleton, s.publishers[p].payload.config, s.publishers[p].phase.target)
  {
    AdoptedComplete(t, skeleton, t.publishers[p]);
  }

  /** With no other writer in between, a drafted version always goes in whole and can be made current. */
  lemma UnracedPublishSucceeds(states: seq<State>, skeleton: seq<Slot>, p: nat, q: Publisher)
    requires OnlyWrites(states, p) && q.phase.Writing? && |states| == |q.phase.stages| + |q.phase.rules| + 1
    requires p < |states[0].publishers| && states[0].publishers[p] == q
    requires Skeletal(skeleton) && Documents(states[0], skeleton) && Underway(states[0], skeleton, q)
    requires q.phase.written == 0 && q.phase.target > Highest(states[0], q.payload.config)
    ensures var t := states[|states| - 1];
            && p < |t.publishers| && Ready(t.publishers[p]) && t.publishers[p].phase.target == q.phase.target
            && t.configs == states[0].configs && Complete(t, skeleton, q.payload.config, q.phase.target)
  {
    StartsGoing(states[0], skeleton, p);
    WritesGoIn(states, skeleton, p, |states| - 1);
    EndsWhole(states[0], states[|states| - 1], skeleton, p);
  }

  lemma FreshIsAhead(s: State, skeleton: seq<Slot>, q: Publisher)
    requires skeleton != [] && Documents(s, skeleton) && q.phase.Writing?
    requires q.phase.target > Highest(s, q.payload.config)
    ensures Ahead(s, q)
  {
    forall key
      ensures DefId(q.payload.config, q.phase.target, key) !in s.stages
      ensures DefId(q.payload.config, q.phase.target, key) !in s.rules
    {
      FreshVersion(s, skeleton, q.payload.config, q.phase.target, key);
    }
  }
}
