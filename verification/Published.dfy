/**
 What a published version contains, in every run: the base version with the edits, the shape and the
 tuning its publisher asked for, and nothing else.
 */
module Published {
  import opened Options
  import opened Publishing
  import opened StageGraph

  /** The publisher read this version and shape as the configuration's current ones. */
  ghost predicate ReadBy(s: State, skeleton: seq<Slot>, events: seq<Event>, p: nat, config: nat,
                         base: nat, shape: Shape) {
    exists j :: 0 <= j < |events| && ReadAt(s, skeleton, events, j, p, config, base, shape)
  }

  ghost predicate ReadAt(s: State, skeleton: seq<Slot>, events: seq<Event>, j: nat, p: nat, config: nat,
                         base: nat, shape: Shape)
    requires j < |events|
  {
    && events[j] == ReadConfig(p)
    && config in Run(s, skeleton, events[..j]).configs
    && Run(s, skeleton, events[..j]).configs[config] == Config(base, shape)
  }

  /** The publisher drafted its version from this catalog. */
  predicate DraftedBy(events: seq<Event>, p: nat, catalog: Catalog) {
    exists k :: 0 <= k < |events| && events[k].Draft? && events[k].p == p && events[k].catalog == catalog
  }

  /** Its adoption pointed the configuration at the version, with the shape it asked for. */
  ghost predicate PointedBy(s: State, skeleton: seq<Slot>, events: seq<Event>, p: nat, config: nat, target: nat,
                            shape: Shape) {
    exists m :: 0 <= m < |events| && PointedAt(s, skeleton, events, m, p, config, target, shape)
  }

  ghost predicate PointedAt(s: State, skeleton: seq<Slot>, events: seq<Event>, m: nat, p: nat, config: nat,
                            target: nat, shape: Shape)
    requires m < |events|
  {
    && events[m] == Adopt(p)
    && config in Run(s, skeleton, events[..m + 1]).configs
    && Run(s, skeleton, events[..m + 1]).configs[config] == Config(target, shape)
  }

  // ---- what one stage of a version is, next to the stage it was made from ---------------------------------

  /** The documents as the payload lists them, in front of the dependencies. */
  predicate LedBy(gates: seq<Gate>, documents: seq<EntryDocument>) {
    && |gates| >= |documents|
    && (forall i :: 0 <= i < |documents| ==> gates[i] == Gate(documents[i].key, DocumentGate, "", documents[i].blocking))
    && (forall i :: |documents| <= i < |gates| ==> gates[i].kind.DependencyGate?)
  }

  /** Only a publish that turns a sequential configuration concurrent derives the dependencies again. */
  predicate Reshaped(payload: Payload, shape: Shape) {
    payload.shape == Some(Concurrent) && shape == Sequential
  }

  function Wanted(payload: Payload, shape: Shape): Shape {
    if payload.shape == None then shape else payload.shape.value
  }

  ghost predicate StageOf(skeleton: seq<Slot>, i: nat, was: Stage, now: Stage, payload: Payload, shape: Shape)
    requires i < |skeleton|
  {
    && now.key == was.key && now.order == was.order && now.checklist == was.checklist
    && now.shape == Wanted(payload, shape)
    && now.qualityGates == (if was.key in payload.edits then payload.edits[was.key].gates else was.qualityGates)
    && (was.key in payload.edits ==> LedBy(now.entryGates, payload.edits[was.key].documents))
    && (was.key !in payload.edits ==> SameOthers(was.entryGates, now.entryGates))
    && (was.key !in payload.edits && !Reshaped(payload, shape) ==> now.entryGates == was.entryGates)
    && (Reshaped(payload, shape) ==> WiredAt(skeleton, i, now.entryGates))
    && (!Reshaped(payload, shape) ==> SameDependencies(was.entryGates, now.entryGates))
  }

  ghost predicate SameOthers(was: seq<Gate>, now: seq<Gate>) {
    forall g: Gate :: g.kind != DependencyGate ==> (g in now <==> g in was)
  }

  ghost predicate SameDependencies(was: seq<Gate>, now: seq<Gate>) {
    forall g: Gate :: g.kind == DependencyGate ==> (g in now <==> g in was)
  }

  function SlotKeys(skeleton: seq<Slot>): seq<string> {
    seq(|skeleton|, i requires 0 <= i < |skeleton| => skeleton[i].key)
  }

  ghost predicate WiredAt(skeleton: seq<Slot>, i: nat, now: seq<Gate>)
    requires i < |skeleton|
  {
    forall g: Gate :: g.kind == DependencyGate ==> (g in now <==> Wired(SlotKeys(skeleton), i, g))
  }

  /** A gate's rule: tuned as the payload says, and otherwise as the catalog has it. */
  predicate RuleIs(r: Rule, key: string, payload: Payload, catalog: Catalog) {
    && r.key == key
    && (key in payload.tuning ==> r.content == payload.tuning[key])
    && (key !in payload.tuning ==> key in catalog && r.content == catalog[key].content)
  }

  ghost predicate StageFrom(t: State, skeleton: seq<Slot>, payload: Payload, base: nat, shape: Shape,
                            version: nat, i: nat)
    requires i < |skeleton|
  {
    var was, now := DefId(payload.config, base, skeleton[i].key), DefId(payload.config, version, skeleton[i].key);
    was in t.stages && now in t.stages && StageOf(skeleton, i, t.stages[was], t.stages[now], payload, shape)
  }

  /** Every gate attached in a version has its own rule there. */
  ghost predicate RulesFrom(t: State, payload: Payload, catalog: Catalog, version: nat, id: DefId) {
    id in t.stages && forall key :: key in t.stages[id].qualityGates ==>
      && DefId(payload.config, version, key) in t.rules
      && RuleIs(t.rules[DefId(payload.config, version, key)], key, payload, catalog)
  }

  ghost predicate Contains(t: State, skeleton: seq<Slot>, payload: Payload, base: nat, shape: Shape,
                           catalog: Catalog, version: nat) {
    && (forall i :: 0 <= i < |skeleton| ==> StageFrom(t, skeleton, payload, base, shape, version, i))
    && (forall i :: 0 <= i < |skeleton| ==>
          RulesFrom(t, payload, catalog, version, DefId(payload.config, version, skeleton[i].key)))
  }

  // ---- one stage ------------------------------------------------------------------------------------------

  lemma {:induction false} DependenciesKept(gates: seq<Gate>)
    ensures forall g :: g in OnlyDependencyGates(gates) <==> g in gates && g.kind.DependencyGate?
  {
    if gates != [] {
      DependenciesKept(gates[1..]);
    }
  }

  lemma EditedLeads(stage: Stage, edit: Edit, catalog: Catalog)
    requires forall k :: 0 <= k < |edit.gates| ==> edit.gates[k] in catalog
    ensures var now := ApplyEdit(stage, edit, catalog);
            && LedBy(now.entryGates, edit.documents) && now.qualityGates == edit.gates
            && WithoutDependencies(now.entryGates) == DocumentGates(edit.documents)
            && SameDependencies(stage.entryGates, now.entryGates)
  {
    var documents, kept := DocumentGates(edit.documents), OnlyDependencyGates(stage.entryGates);
    AllAttachable(edit.gates, catalog);
    DependenciesKept(stage.entryGates);
    forall i | 0 <= i < |kept|
      ensures kept[i].kind.DependencyGate?
    {
      assert kept[i] in kept;
    }
    WithoutAppend(documents, kept);
    DocumentsAreNoDependencies(documents);
    OnlyDependencies(kept);
    forall g: Gate | g.kind == DependencyGate
      ensures g in documents + kept <==> g in stage.entryGates
    {
      assert g in documents + kept <==> g in documents || g in kept;
    }
  }

  /** One stage of the edited list, before any change of shape. */
  lemma StageEdited(skeleton: seq<Slot>, current: seq<Stage>, payload: Payload, catalog: Catalog, i: nat)
    requires Laid(skeleton, current) && i < |current|
    requires forall key, k :: key in payload.edits && 0 <= k < |payload.edits[key].gates| ==>
      payload.edits[key].gates[k] in catalog
    ensures var was, now := current[i], Edited(current, payload.edits, catalog)[i];
            && now == was.(entryGates := now.entryGates, qualityGates := now.qualityGates)
            && now.qualityGates == (if was.key in payload.edits then payload.edits[was.key].gates else was.qualityGates)
            && (was.key in payload.edits ==>
              && LedBy(now.entryGates, payload.edits[was.key].documents)
              && WithoutDependencies(now.entryGates) == DocumentGates(payload.edits[was.key].documents))
            && (was.key !in payload.edits ==> now == was)
            && SameDependencies(was.entryGates, now.entryGates)
  {
    if current[i].key in payload.edits {
      EditedLeads(current[i], payload.edits[current[i].key], catalog);
    }
  }

  lemma StageRewired(skeleton: seq<Slot>, edited: seq<Stage>, i: nat)
    requires Laid(skeleton, edited) && i < |edited|
    ensures var now := Rewired(edited, i);
            && now == edited[i].(shape := Concurrent, entryGates := now.entryGates)
            && SameOthers(edited[i].entryGates, now.entryGates) && WiredAt(skeleton, i, now.entryGates)
            && forall documents :: WithoutDependencies(edited[i].entryGates) == DocumentGates(documents) ==>
              LedBy(now.entryGates, documents)
  {
    var kept, added := WithoutDependencies(edited[i].entryGates), NewDependencies(edited, i);
    KeptAreNotDependencies(edited[i].entryGates);
    NewDependenciesAre(edited, i);
    NewAreWired(edited, i);
    assert SlotKeys(skeleton) == KeysOf(edited);
    assert forall g :: g in kept + added <==> g in kept || g in added;
    assert forall g :: g in added ==> g.kind.DependencyGate?;
  }

  lemma StageMade(skeleton: seq<Slot>, current: seq<Stage>, payload: Payload, catalog: Catalog, shape: Shape, i: nat)
    requires Skeletal(skeleton) && Laid(skeleton, current) && i < |current|
    requires forall key, k :: key in payload.edits && 0 <= k < |payload.edits[key].gates| ==>
      payload.edits[key].gates[k] in catalog
    ensures i < |NewStages(current, payload, catalog, shape)|
    ensures StageOf(skeleton, i, current[i], NewStages(current, payload, catalog, shape)[i], payload, shape)
  {
    var edited := Edited(current, payload.edits, catalog);
    StageEdited(skeleton, current, payload, catalog, i);
    assert Laid(skeleton, edited) && StrictlyOrdered(edited);
    OrderedStays(edited);
    if Reshaped(payload, shape) {
      StageRewired(skeleton, edited, i);
    }
  }

  // ---- a publisher on its way -----------------------------------------------------------------------------

  ghost predicate RulesTuned(rules: seq<Rule>, payload: Payload, catalog: Catalog) {
    forall j :: 0 <= j < |rules| ==> RuleIs(rules[j], rules[j].key, payload, catalog)
  }

  /** What a publisher is writing is what it should. */
  ghost predicate Composed(t: State, skeleton: seq<Slot>, q: Publisher, base: nat, shape: Shape, catalog: Catalog)
    requires q.phase.Writing?
  {
    var payload := q.payload;
    && base < q.phase.target && q.phase.newShape == Wanted(payload, shape)
    && Sealed(t, skeleton, payload.config, base)
    && q.phase.stages == NewStages(StageDocs(t, skeleton, payload.config, base), payload, catalog, shape)
    && (forall key, k :: key in payload.edits && 0 <= k < |payload.edits[key].gates| ==>
          payload.edits[key].gates[k] in catalog)
    && RulesTuned(q.phase.rules, payload, catalog)
  }

  /** The publisher read this base version and drafted from this catalog. */
  ghost predicate From(s: State, skeleton: seq<Slot>, events: seq<Event>, p: nat, config: nat,
                       base: nat, shape: Shape, catalog: Catalog) {
    ReadBy(s, skeleton, events, p, config, base, shape) && DraftedBy(events, p, catalog)
  }

  ghost predicate Whole(s: State, skeleton: seq<Slot>, events: seq<Event>, p: nat, payload: Payload, target: nat,
                        base: nat, shape: Shape, catalog: Catalog) {
    && From(s, skeleton, events, p, payload.config, base, shape, catalog) && base < target
    && Contains(Run(s, skeleton, events), skeleton, payload, base, shape, catalog, target)
    && PointedBy(s, skeleton, events, p, payload.config, target, Wanted(payload, shape))
  }

  ghost predicate Drafting(s: State, skeleton: seq<Slot>, events: seq<Event>, p: nat, t: State, q: Publisher)
    requires q.phase.Writing?
  {
    exists base, shape, catalog ::
      From(s, skeleton, events, p, q.payload.config, base, shape, catalog)
      && Composed(t, skeleton, q, base, shape, catalog)
  }

  ghost predicate Done(s: State, skeleton: seq<Slot>, events: seq<Event>, p: nat, payload: Payload, target: nat) {
    exists base, shape, catalog :: Whole(s, skeleton, events, p, payload, target, base, shape, catalog)
  }

  ghost predicate Known(s: State, skeleton: seq<Slot>, events: seq<Event>, p: nat)
    requires p < |Run(s, skeleton, events).publishers|
  {
    var t := Run(s, skeleton, events);
    var q := t.publishers[p];
    match q.phase
    case KnowsConfig(base, shape) => ReadBy(s, skeleton, events, p, q.payload.config, base, shape)
    case KnowsVersion(base, shape, _) => ReadBy(s, skeleton, events, p, q.payload.config, base, shape)
    case Writing(_, _, _, _, _) => Drafting(s, skeleton, events, p, t, q)
    case Adopted(target) => Done(s, skeleton, events, p, q.payload, target)
    case _ => true
  }

  lemma ReadStays(s: State, skeleton: seq<Slot>, events: seq<Event>, p: nat, config: nat, base: nat, shape: Shape)
    requires events != [] && ReadBy(s, skeleton, events[..|events| - 1], p, config, base, shape)
    ensures ReadBy(s, skeleton, events, p, config, base, shape)
  {
    var n := |events| - 1;
    var j :| 0 <= j < n && ReadAt(s, skeleton, events[..n], j, p, config, base, shape);
    assert events[..n][..j] == events[..j] && events[..n][j] == events[j];
    assert ReadAt(s, skeleton, events, j, p, config, base, shape);
  }

  lemma PointStays(s: State, skeleton: seq<Slot>, events: seq<Event>, p: nat, config: nat, target: nat, shape: Shape)
    requires events != [] && PointedBy(s, skeleton, events[..|events| - 1], p, config, target, shape)
    ensures PointedBy(s, skeleton, events, p, config, target, shape)
  {
    var n := |events| - 1;
    var m :| 0 <= m < n && PointedAt(s, skeleton, events[..n], m, p, config, target, shape);
    assert events[..n][..m + 1] == events[..m + 1] && events[..n][m] == events[m];
    assert PointedAt(s, skeleton, events, m, p, config, target, shape);
  }

  lemma DraftStays(events: seq<Event>, p: nat, catalog: Catalog)
    requires events != [] && DraftedBy(events[..|events| - 1], p, catalog)
    ensures DraftedBy(events, p, catalog)
  {
    var n := |events| - 1;
    var k :| 0 <= k < n && events[..n][k].Draft? && events[..n][k].p == p && events[..n][k].catalog == catalog;
    assert events[k] == events[..n][k];
  }

  lemma FromStays(s: State, skeleton: seq<Slot>, events: seq<Event>, p: nat, config: nat,
                  base: nat, shape: Shape, catalog: Catalog)
    requires events != [] && From(s, skeleton, events[..|events| - 1], p, config, base, shape, catalog)
    ensures From(s, skeleton, events, p, config, base, shape, catalog)
  {
    ReadStays(s, skeleton, events, p, config, base, shape);
    DraftStays(events, p, catalog);
  }

  /** Nothing that is written changes, so what a version contains stays. */
  lemma ContainsStays(s: State, t: State, skeleton: seq<Slot>, payload: Payload, base: nat, shape: Shape,
                      catalog: Catalog, version: nat)
    requires Grows(s, t) && Contains(s, skeleton, payload, base, shape, catalog, version)
    ensures Contains(t, skeleton, payload, base, shape, catalog, version)
  {
    forall i | 0 <= i < |skeleton|
      ensures StageFrom(t, skeleton, payload, base, shape, version, i)
      ensures RulesFrom(t, payload, catalog, version, DefId(payload.config, version, skeleton[i].key))
    {
      assert StageFrom(s, skeleton, payload, base, shape, version, i);
      assert RulesFrom(s, payload, catalog, version, DefId(payload.config, version, skeleton[i].key));
    }
  }

  lemma ComposedStays(s: State, t: State, skeleton: seq<Slot>, q: Publisher, r: Publisher, base: nat, shape: Shape,
                      catalog: Catalog)
    requires q.phase.Writing? && Composed(s, skeleton, q, base, shape, catalog)
    requires r.payload == q.payload && r.phase.Writing? && r.phase == q.phase.(written := r.phase.written)
    requires Grows(s, t) && Sealed(t, skeleton, q.payload.config, base)
    ensures Composed(t, skeleton, r, base, shape, catalog)
  {
    DocsStay(s, t, skeleton, q.payload.config, base);
  }

  /** A draft is what the payload, the base version and the catalog make it. */
  lemma DraftComposed(t: State, skeleton: seq<Slot>, q: Publisher, catalog: Catalog, keys: seq<string>)
    requires q.phase.KnowsVersion? && q.phase.base < q.phase.version
    requires Sealed(t, skeleton, q.payload.config, q.phase.base)
    ensures var w := Drafted(t, skeleton, q, catalog, keys);
            w.Stopped?
            || (w.Writing? && Composed(t, skeleton, q.(phase := w), q.phase.base, q.phase.shape, catalog))
  {
  }

  /** A gate the new version attaches: as the payload says, and elsewhere as the base version has it. */
  ghost predicate Attaches(t: State, skeleton: seq<Slot>, payload: Payload, base: nat, key: string) {
    exists i :: 0 <= i < |skeleton| && AttachesAt(t, skeleton, payload, base, i, key)
  }

  predicate AttachesAt(t: State, skeleton: seq<Slot>, payload: Payload, base: nat, i: nat, key: string)
    requires i < |skeleton|
  {
    if skeleton[i].key in payload.edits then key in payload.edits[skeleton[i].key].gates
    else DefId(payload.config, base, skeleton[i].key) in t.stages
         && key in t.stages[DefId(payload.config, base, skeleton[i].key)].qualityGates
  }

  predicate UnknownStage(skeleton: seq<Slot>, payload: Payload) {
    exists key :: key in payload.edits && forall i :: 0 <= i < |skeleton| ==> skeleton[i].key != key
  }

  predicate UnknownGate(payload: Payload, catalog: Catalog) {
    exists key, k :: key in payload.edits && 0 <= k < |payload.edits[key].gates|
                     && payload.edits[key].gates[k] !in catalog
  }

  /** Some order of the attached gates, each once. */
  ghost predicate ListsAttached(t: State, skeleton: seq<Slot>, payload: Payload, base: nat, keys: seq<string>) {
    && (forall key :: key in keys <==> Attaches(t, skeleton, payload, base, key))
    && (forall i, j :: 0 <= i < j < |keys| ==> keys[i] != keys[j])
  }

  lemma AttachedAtIs(t: State, skeleton: seq<Slot>, current: seq<Stage>, payload: Payload, catalog: Catalog,
                     base: nat, shape: Shape, i: nat)
    requires Skeletal(skeleton) && Laid(skeleton, current) && i < |current|
    requires DefId(payload.config, base, skeleton[i].key) in t.stages
    requires current[i] == t.stages[DefId(payload.config, base, skeleton[i].key)]
    requires forall key, k :: key in payload.edits && 0 <= k < |payload.edits[key].gates| ==>
      payload.edits[key].gates[k] in catalog
    ensures i < |NewStages(current, payload, catalog, shape)|
    ensures forall key :: key in NewStages(current, payload, catalog, shape)[i].qualityGates
                          <==> AttachesAt(t, skeleton, payload, base, i, key)
  {
    StageMade(skeleton, current, payload, catalog, shape, i);
    assert current[i].key == skeleton[i].key;
  }

  lemma AttachedAre(t: State, skeleton: seq<Slot>, payload: Payload, base: nat, stages: seq<Stage>)
    requires |stages| == |skeleton|
    requires forall i, key :: 0 <= i < |skeleton| ==>
      (key in stages[i].qualityGates <==> AttachesAt(t, skeleton, payload, base, i, key))
    ensures forall key :: key in AttachedKeys(stages) <==> Attaches(t, skeleton, payload, base, key)
  {
    forall key
      ensures key in AttachedKeys(stages) <==> Attaches(t, skeleton, payload, base, key)
    {
      if Attaches(t, skeleton, payload, base, key) {
        var i :| 0 <= i < |skeleton| && AttachesAt(t, skeleton, payload, base, i, key);
        assert key in stages[i].qualityGates;
        var k :| 0 <= k < |stages[i].qualityGates| && stages[i].qualityGates[k] == key;
      }
      if key in AttachedKeys(stages) {
        var i, k :| 0 <= i < |stages| && 0 <= k < |stages[i].qualityGates| && stages[i].qualityGates[k] == key;
        assert key in stages[i].qualityGates && AttachesAt(t, skeleton, payload, base, i, key);
      }
    }
  }

  /** The draft's stages attach what the payload and the base version do. */
  lemma DraftAttaches(t: State, skeleton: seq<Slot>, payload: Payload, catalog: Catalog, base: nat, shape: Shape)
    requires Skeletal(skeleton) && Documents(t, skeleton) && HasStages(t, skeleton, payload.config, base)
    requires !UnknownGate(payload, catalog)
    ensures var stages := NewStages(StageDocs(t, skeleton, payload.config, base), payload, catalog, shape);
            forall key :: key in AttachedKeys(stages) <==> Attaches(t, skeleton, payload, base, key)
  {
    var current := StageDocs(t, skeleton, payload.config, base);
    var stages := NewStages(current, payload, catalog, shape);
    DocsInOrder(t, skeleton, payload.config, base);
    DocsLaid(t, skeleton, payload.config, base);
    NewStagesLaid(skeleton, current, payload, catalog, shape);
    forall i | 0 <= i < |skeleton|
      ensures forall key :: key in stages[i].qualityGates <==> AttachesAt(t, skeleton, payload, base, i, key)
    {
      AttachedAtIs(t, skeleton, current, payload, catalog, base, shape, i);
    }
    AttachedAre(t, skeleton, payload, base, stages);
  }

  lemma AllListed(t: State, skeleton: seq<Slot>, payload: Payload, catalog: Catalog, base: nat, shape: Shape,
                  keys: seq<string>)
    requires Skeletal(skeleton) && Documents(t, skeleton) && HasStages(t, skeleton, payload.config, base)
    requires !UnknownGate(payload, catalog) && ListsAttached(t, skeleton, payload, base, keys)
    ensures ListsOnce(keys, AttachedKeys(NewStages(StageDocs(t, skeleton, payload.config, base), payload, catalog, shape)))
    ensures (exists i :: 0 <= i < |keys| && keys[i] !in catalog)
            <==> exists key :: Attaches(t, skeleton, payload, base, key) && key !in catalog
  {
    DraftAttaches(t, skeleton, payload, catalog, base, shape);
    if i :| 0 <= i < |keys| && keys[i] !in catalog {
      assert keys[i] in keys;
    }
  }

  /** What is read back of a complete version names the skeleton's stages. */
  lemma StagesNamed(t: State, skeleton: seq<Slot>, payload: Payload, base: nat)
    requires Skeletal(skeleton) && Documents(t, skeleton) && HasStages(t, skeleton, payload.config, base)
    ensures var current := StageDocs(t, skeleton, payload.config, base);
            && current != []
            && (UnknownStage(skeleton, payload) <==> NotAmong(current, payload))
  {
    DocsLaid(t, skeleton, payload.config, base);
  }

  predicate NotAmong(current: seq<Stage>, payload: Payload) {
    exists key :: key in payload.edits && forall i :: 0 <= i < |current| ==> current[i].key != key
  }

  /** A publish that names nothing unknown goes by the gates it attaches. */
  lemma DraftGoesBy(t: State, skeleton: seq<Slot>, q: Publisher, catalog: Catalog, keys: seq<string>)
    requires q.phase.KnowsVersion? && StageDocs(t, skeleton, q.payload.config, q.phase.base) != []
    requires !NotAmong(StageDocs(t, skeleton, q.payload.config, q.phase.base), q.payload)
    requires !UnknownGate(q.payload, catalog)
    requires ListsOnce(keys, AttachedKeys(NewStages(StageDocs(t, skeleton, q.payload.config, q.phase.base),
                                                    q.payload, catalog, q.phase.shape)))
    ensures Drafted(t, skeleton, q, catalog, keys).Stopped? <==> exists i :: 0 <= i < |keys| && keys[i] !in catalog
  {
  }

  lemma DraftRefuses(t: State, skeleton: seq<Slot>, q: Publisher, catalog: Catalog, keys: seq<string>)
    requires q.phase.KnowsVersion?
    requires UnknownGate(q.payload, catalog)
             || NotAmong(StageDocs(t, skeleton, q.payload.config, q.phase.base), q.payload)
    ensures Drafted(t, skeleton, q, catalog, keys).Stopped?
  {
    if UnknownGate(q.payload, catalog) {
      var key, k :| key in q.payload.edits && 0 <= k < |q.payload.edits[key].gates|
                    && q.payload.edits[key].gates[k] !in catalog;
    }
  }

  /**
   A publish is refused exactly when it names a stage outside the skeleton, names a gate outside the
   catalog, or carries over a gate that has left the catalog.
   */
  lemma DraftRefusedIff(t: State, skeleton: seq<Slot>, q: Publisher, catalog: Catalog, keys: seq<string>)
    requires Skeletal(skeleton) && Documents(t, skeleton) && q.phase.KnowsVersion?
    requires Sealed(t, skeleton, q.payload.config, q.phase.base)
    requires ListsAttached(t, skeleton, q.payload, q.phase.base, keys)
    ensures Drafted(t, skeleton, q, catalog, keys).Stopped? <==>
      || UnknownStage(skeleton, q.payload) || UnknownGate(q.payload, catalog)
      || exists key :: Attaches(t, skeleton, q.payload, q.phase.base, key) && key !in catalog
  {
    var payload, base := q.payload, q.phase.base;
    StagesNamed(t, skeleton, payload, base);
    if UnknownStage(skeleton, payload) || UnknownGate(payload, catalog) {
      DraftRefuses(t, skeleton, q, catalog, keys);
    } else {
      AllListed(t, skeleton, payload, catalog, base, q.phase.shape, keys);
      DraftGoesBy(t, skeleton, q, catalog, keys);
    }
  }

  /** Written whole, a draft is what the version contains. */
  lemma WrittenContains(t: State, skeleton: seq<Slot>, q: Publisher, base: nat, shape: Shape, catalog: Catalog)
    requires Skeletal(skeleton) && Documents(t, skeleton) && Publishing.Ready(q) && Underway(t, skeleton, q)
    requires Composed(t, skeleton, q, base, shape, catalog)
    ensures Contains(t, skeleton, q.payload, base, shape, catalog, q.phase.target)
  {
    var config, w := q.payload.config, q.phase;
    DocsInOrder(t, skeleton, config, base);
    DocsLaid(t, skeleton, config, base);
    forall i | 0 <= i < |skeleton|
      ensures StageFrom(t, skeleton, q.payload, base, shape, w.target, i)
      ensures RulesFrom(t, q.payload, catalog, w.target, DefId(config, w.target, skeleton[i].key))
    {
      assert StageWritten(t, config, w.target, w.stages[i]);
      StageMade(skeleton, StageDocs(t, skeleton, config, base), q.payload, catalog, shape, i);
      RulesMade(t, q, catalog, i);
    }
  }

  lemma RulesMade(t: State, q: Publisher, catalog: Catalog, i: nat)
    requires q.phase.Writing? && i < |q.phase.stages| && RulesCover(q.phase.stages, q.phase.rules)
    requires RulesTuned(q.phase.rules, q.payload, catalog)
    requires forall j :: 0 <= j < |q.phase.rules| ==> RuleWritten(t, q.payload.config, q.phase.target, q.phase.rules[j])
    requires StageWritten(t, q.payload.config, q.phase.target, q.phase.stages[i])
    ensures RulesFrom(t, q.payload, catalog, q.phase.target,
                      DefId(q.payload.config, q.phase.target, q.phase.stages[i].key))
  {
    forall key | key in q.phase.stages[i].qualityGates
      ensures DefId(q.payload.config, q.phase.target, key) in t.rules
      ensures RuleIs(t.rules[DefId(q.payload.config, q.phase.target, key)], key, q.payload, catalog)
    {
      var j :| 0 <= j < |q.phase.rules| && q.phase.rules[j].key == key;
      assert RuleWritten(t, q.payload.config, q.phase.target, q.phase.rules[j]);
    }
  }

  // ---- every event keeps what is known --------------------------------------------------------------------

  /** A draft on its way, with or without one more document written. */
  lemma DraftingStays(s: State, skeleton: seq<Slot>, events: seq<Event>, p: nat, b: State, t: State,
                      q: Publisher, r: Publisher)
    requires events != [] && q.phase.Writing? && Drafting(s, skeleton, events[..|events| - 1], p, b, q)
    requires r.payload == q.payload && r.phase.Writing? && r.phase == q.phase.(written := r.phase.written)
    requires Grows(b, t) && SealedStays(b, t, skeleton)
    ensures Drafting(s, skeleton, events, p, t, r)
  {
    var base, shape, catalog :|
      From(s, skeleton, events[..|events| - 1], p, q.payload.config, base, shape, catalog)
      && Composed(b, skeleton, q, base, shape, catalog);
    FromStays(s, skeleton, events, p, q.payload.config, base, shape, catalog);
    ComposedStays(b, t, skeleton, q, r, base, shape, catalog);
  }

  lemma DoneStays(s: State, skeleton: seq<Slot>, events: seq<Event>, p: nat, payload: Payload, target: nat)
    requires events != [] && Done(s, skeleton, events[..|events| - 1], p, payload, target)
    requires Grows(Run(s, skeleton, events[..|events| - 1]), Run(s, skeleton, events))
    ensures Done(s, skeleton, events, p, payload, target)
  {
    var before := events[..|events| - 1];
    var base, shape, catalog :| Whole(s, skeleton, before, p, payload, target, base, shape, catalog);
    FromStays(s, skeleton, events, p, payload.config, base, shape, catalog);
    PointStays(s, skeleton, events, p, payload.config, target, Wanted(payload, shape));
    ContainsStays(Run(s, skeleton, before), Run(s, skeleton, events), skeleton, payload, base, shape, catalog, target);
    assert Whole(s, skeleton, events, p, payload, target, base, shape, catalog);
  }

  /** An event that leaves every document in place. */
  ghost predicate Onwards(s: State, skeleton: seq<Slot>, events: seq<Event>)
    requires events != []
  {
    var b, t := Run(s, skeleton, events[..|events| - 1]), Run(s, skeleton, events);
    Grows(b, t) && SealedStays(b, t, skeleton)
  }

  /** Publishers that an event does not move. */
  lemma StillKnown(s: State, skeleton: seq<Slot>, events: seq<Event>, p: nat)
    requires events != [] && Onwards(s, skeleton, events)
    requires var b, t := Run(s, skeleton, events[..|events| - 1]), Run(s, skeleton, events);
             p < |b.publishers| && p < |t.publishers| && t.publishers[p] == b.publishers[p]
    requires Known(s, skeleton, events[..|events| - 1], p)
    ensures Known(s, skeleton, events, p)
  {
    var b, t := Run(s, skeleton, events[..|events| - 1]), Run(s, skeleton, events);
    var q := t.publishers[p];
    match q.phase
    case KnowsConfig(base, shape) => ReadStays(s, skeleton, events, p, q.payload.config, base, shape);
    case KnowsVersion(base, shape, _) => ReadStays(s, skeleton, events, p, q.payload.config, base, shape);
    case Writing(_, _, _, _, _) => DraftingStays(s, skeleton, events, p, b, t, q, q);
    case Adopted(target) => DoneStays(s, skeleton, events, p, q.payload, target);
    case _ =>
  }

  /** What a publisher drafts. */
  lemma DraftKnown(s: State, skeleton: seq<Slot>, events: seq<Event>, b: State, t: State, q: Publisher)
    requires events != [] && events[|events| - 1].Draft? && q.phase.KnowsVersion? && Sound(b, skeleton, q)
    requires Grows(b, t) && SealedStays(b, t, skeleton)
    requires ReadBy(s, skeleton, events[..|events| - 1], events[|events| - 1].p, q.payload.config,
                    q.phase.base, q.phase.shape)
    ensures var e := events[|events| - 1];
            var w := Drafted(b, skeleton, q, e.catalog, e.keys);
            w.Stopped? || (w.Writing? && Drafting(s, skeleton, events, e.p, t, q.(phase := w)))
  {
    var e := events[|events| - 1];
    ReadStays(s, skeleton, events, e.p, q.payload.config, q.phase.base, q.phase.shape);
    assert DraftedBy(events, e.p, e.catalog);
    DraftComposed(b, skeleton, q, e.catalog, e.keys);
    var r := q.(phase := Drafted(b, skeleton, q, e.catalog, e.keys));
    if r.phase.Writing? {
      ComposedStays(b, t, skeleton, r, r, q.phase.base, q.phase.shape, e.catalog);
      assert From(s, skeleton, events, e.p, q.payload.config, q.phase.base, q.phase.shape, e.catalog);
    }
  }

  /** What a publisher reads or drafts. */
  lemma ThoughtKnown(s: State, skeleton: seq<Slot>, events: seq<Event>)
    requires events != [] && Onwards(s, skeleton, events)
    requires var b, e := Run(s, skeleton, events[..|events| - 1]), events[|events| - 1];
             Inv(b, skeleton) && Thinks(e) && Enabled(b, e) && Known(s, skeleton, events[..|events| - 1], e.p)
    ensures Known(s, skeleton, events, events[|events| - 1].p)
  {
    var n := |events| - 1;
    var b, t, e := Run(s, skeleton, events[..n]), Run(s, skeleton, events), events[n];
    var q := b.publishers[e.p];
    assert t == WithPhase(b, e.p, Thought(b, skeleton, e));
    match e
    case ReadConfig(p) =>
      if q.payload.config in b.configs {
        assert ReadAt(s, skeleton, events, n, p, q.payload.config,
                      b.configs[q.payload.config].current, b.configs[q.payload.config].shape);
      }
    case ReadHighest(p) => ReadStays(s, skeleton, events, p, q.payload.config, q.phase.base, q.phase.shape);
    case Draft(p, _, _) =>
      assert Sound(b, skeleton, q);
      DraftKnown(s, skeleton, events, b, t, q);
    case Stop(_) =>
  }

  /** A written document leaves the draft as it is. */
  lemma WriteKnown(s: State, skeleton: seq<Slot>, events: seq<Event>)
    requires events != [] && Onwards(s, skeleton, events)
    requires var b, e := Run(s, skeleton, events[..|events| - 1]), events[|events| - 1];
             e.WriteNext? && Enabled(b, e) && Known(s, skeleton, events[..|events| - 1], e.p)
    ensures var t, e := Run(s, skeleton, events), events[|events| - 1];
            e.p < |t.publishers| && Known(s, skeleton, events, e.p)
  {
    var n := |events| - 1;
    var b, t, e := Run(s, skeleton, events[..n]), Run(s, skeleton, events), events[n];
    assert t == WriteStep(b, e.p);
    WriteOutcome(b, e.p);
    if t.publishers[e.p].phase.Writing? {
      DraftingStays(s, skeleton, events, e.p, b, t, b.publishers[e.p], t.publishers[e.p]);
    }
  }

  lemma PointedLast(s: State, skeleton: seq<Slot>, events: seq<Event>, config: nat, target: nat, shape: Shape)
    requires events != [] && events[|events| - 1].Adopt?
    requires var t := Run(s, skeleton, events); config in t.configs && t.configs[config] == Config(target, shape)
    ensures PointedBy(s, skeleton, events, events[|events| - 1].p, config, target, shape)
  {
    var n := |events| - 1;
    assert events[..n + 1] == events;
    assert PointedAt(s, skeleton, events, n, events[n].p, config, target, shape);
  }

  lemma WholeVersion(b: State, t: State, skeleton: seq<Slot>, q: Publisher, base: nat, shape: Shape, catalog: Catalog)
    requires Skeletal(skeleton) && Documents(b, skeleton) && Publishing.Ready(q) && Underway(b, skeleton, q)
    requires Composed(b, skeleton, q, base, shape, catalog) && Grows(b, t)
    ensures Contains(t, skeleton, q.payload, base, shape, catalog, q.phase.target)
    ensures base < q.phase.target && q.phase.newShape == Wanted(q.payload, shape)
  {
    WrittenContains(b, skeleton, q, base, shape, catalog);
    ContainsStays(b, t, skeleton, q.payload, base, shape, catalog, q.phase.target);
  }

  /** Pointing the configuration at a version that is written whole. */
  lemma AdoptWhole(s: State, skeleton: seq<Slot>, events: seq<Event>, b: State, q: Publisher)
    requires events != [] && events[|events| - 1].Adopt? && Publishing.Ready(q) && Underway(b, skeleton, q)
    requires Skeletal(skeleton) && Documents(b, skeleton)
    requires Drafting(s, skeleton, events[..|events| - 1], events[|events| - 1].p, b, q)
    requires Grows(b, Run(s, skeleton, events))
    requires var t := Run(s, skeleton, events);
             q.payload.config in t.configs && t.configs[q.payload.config] == Config(q.phase.target, q.phase.newShape)
    ensures Done(s, skeleton, events, events[|events| - 1].p, q.payload, q.phase.target)
  {
    var before, p := events[..|events| - 1], events[|events| - 1].p;
    PointedLast(s, skeleton, events, q.payload.config, q.phase.target, q.phase.newShape);
    var base, shape, catalog :|
      From(s, skeleton, before, p, q.payload.config, base, shape, catalog)
      && Composed(b, skeleton, q, base, shape, catalog);
    FromStays(s, skeleton, events, p, q.payload.config, base, shape, catalog);
    WholeVersion(b, Run(s, skeleton, events), skeleton, q, base, shape, catalog);
    assert Whole(s, skeleton, events, p, q.payload, q.phase.target, base, shape, catalog);
  }

  /** A written version is adopted whole. */
  lemma AdoptKnown(s: State, skeleton: seq<Slot>, events: seq<Event>)
    requires events != [] && Onwards(s, skeleton, events)
    requires var b, e := Run(s, skeleton, events[..|events| - 1]), events[|events| - 1];
             && Inv(b, skeleton) && e.Adopt? && Enabled(b, e) && Known(s, skeleton, events[..|events| - 1], e.p)
    ensures Known(s, skeleton, events, events[|events| - 1].p)
  {
    var n := |events| - 1;
    var b, t, e := Run(s, skeleton, events[..n]), Run(s, skeleton, events), events[n];
    var q := b.publishers[e.p];
    assert t == AdoptStep(b, e.p) && Sound(b, skeleton, q);
    AdoptWhole(s, skeleton, events, b, q);
  }

  lemma StepOnwards(s: State, skeleton: seq<Slot>, events: seq<Event>)
    requires events != [] && Inv(Run(s, skeleton, events[..|events| - 1]), skeleton)
    ensures Onwards(s, skeleton, events)
  {
    var b, e := Run(s, skeleton, events[..|events| - 1]), events[|events| - 1];
    NextGrows(b, skeleton, e);
    NextSealedStays(b, skeleton, e);
  }

  /** Which publisher an event moves, and where a new one comes in. */
  lemma Moved(b: State, skeleton: seq<Slot>, e: Event, p: nat)
    requires p < |Next(b, skeleton, e).publishers|
    ensures var t := Next(b, skeleton, e);
            || (p < |b.publishers| && t.publishers[p] == b.publishers[p])
            || t.publishers[p].phase.Asked?
            || (p < |b.publishers| && Enabled(b, e) && (Thinks(e) || e.WriteNext? || e.Adopt?) && e.p == p)
  {
    if Enabled(b, e) && e.WriteNext? {
      WriteOutcome(b, e.p);
    }
  }

  lemma StepKnown(s: State, skeleton: seq<Slot>, events: seq<Event>, p: nat)
    requires events != [] && Onwards(s, skeleton, events)
    requires var b := Run(s, skeleton, events[..|events| - 1]);
             Inv(b, skeleton) && (p < |b.publishers| ==> Known(s, skeleton, events[..|events| - 1], p))
    requires p < |Run(s, skeleton, events).publishers|
    ensures Known(s, skeleton, events, p)
  {
    var b, t, e := Run(s, skeleton, events[..|events| - 1]), Run(s, skeleton, events), events[|events| - 1];
    Moved(b, skeleton, e, p);
    if p < |b.publishers| && t.publishers[p] == b.publishers[p] {
      StillKnown(s, skeleton, events, p);
    } else if !t.publishers[p].phase.Asked? {
      if Thinks(e) {
        ThoughtKnown(s, skeleton, events);
      } else if e.WriteNext? {
        WriteKnown(s, skeleton, events);
      } else {
        AdoptKnown(s, skeleton, events);
      }
    }
  }

  lemma {:induction false} EverythingKnown(s: State, skeleton: seq<Slot>, events: seq<Event>, p: nat)
    requires Inv(s, skeleton) && s.publishers == [] && p < |Run(s, skeleton, events).publishers|
    ensures Known(s, skeleton, events, p)
  {
    if events != [] {
      var before := events[..|events| - 1];
      RunKeepsInv(s, skeleton, before);
      StepOnwards(s, skeleton, events);
      if p < |Run(s, skeleton, before).publishers| {
        EverythingKnown(s, skeleton, before, p);
      }
      StepKnown(s, skeleton, events, p);
    }
  }

  /**
   After any run, with any number of publishers racing, an adopted version contains exactly what its
   publisher asked for: each stage of the base version it read, with the documents, gates and shape of
   its payload, and one rule for each attached gate, tuned by the payload or else as in the catalog it
   drafted from. Its adoption pointed the configuration at that version.
   */
  lemma AdoptedContains(s: State, skeleton: seq<Slot>, events: seq<Event>, p: nat)
    requires Seeded(s, skeleton)
    requires p < |Run(s, skeleton, events).publishers| && Run(s, skeleton, events).publishers[p].phase.Adopted?
    ensures var t := Run(s, skeleton, events);
            var payload, target := t.publishers[p].payload, t.publishers[p].phase.target;
            exists base: nat, shape: Shape, catalog: Catalog ::
              && ReadBy(s, skeleton, events, p, payload.config, base, shape) && DraftedBy(events, p, catalog)
              && base < target && Contains(t, skeleton, payload, base, shape, catalog, target)
              && PointedBy(s, skeleton, events, p, payload.config, target, Wanted(payload, shape))
  {
    var q := Run(s, skeleton, events).publishers[p];
    SeededInv(s, skeleton);
    EverythingKnown(s, skeleton, events, p);
    var base, shape, catalog :| Whole(s, skeleton, events, p, q.payload, q.phase.target, base, shape, catalog);
    assert From(s, skeleton, events, p, q.payload.config, base, shape, catalog);
  }
}
