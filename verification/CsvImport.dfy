/**
 The two-phase import: look the collection up once, plan every row against that index, then apply
 the plan. The reference it must agree with upserts the rows one at a time with a fresh lookup.
 */
module CsvImport {
  import opened CsvCells
  import CsvFile
  import opened Options

  /** A column of the file: a document field, or one level inside a sub-document. */
  datatype Column = Flat(name: string) | Nested(parent: string, child: string)

  type RowValues = map<Column, Value>

  datatype Stored = Scalar(value: Value) | Sub(children: map<string, Value>)

  type Fields = map<string, Stored>

  /** A document's identity is its position: imports insert and update, never remove. */
  datatype Doc = Doc(fields: Fields, deleted: bool, createdBy: string, updatedBy: Option<string>)

  /** A column standing in for a stored id. */
  datatype Ref = Ref(key: string, docKey: string, foldCase: bool)

  datatype Entity = Entity(
    columns: set<Column>, refs: seq<Ref>, naturalKey: seq<string>, keyFold: bool, appendOnly: bool,
    defaults: Fields, owned: bool,
    textOf: Stored -> string, fold: string -> string)

  type Key = seq<Option<string>>

  /** Per reference column, matched text to id, built from the collections as they stood before. */
  type Tables = map<string, map<string, string>>

  datatype Row = Row(number: nat, values: RowValues)

  // ---- keys ------------------------------------------------------------------------------------------

  predicate Blank(stored: Stored) {
    stored == Scalar(Nothing) || stored == Scalar(Text(""))
  }

  function FieldAt(fields: Fields, name: string): Stored {
    if name in fields then fields[name] else Scalar(Nothing)
  }

  function RefFor(refs: seq<Ref>, key: string): Option<Ref> {
    if refs == [] then None
    else if refs[0].key == key then Some(refs[0])
    else RefFor(refs[1..], key)
  }

  function RefPart(e: Entity, stored: Stored): Option<string> {
    if Blank(stored) then None else Some(e.textOf(stored))
  }

  function KeyPart(e: Entity, stored: Stored): Option<string> {
    Some(if e.keyFold then e.fold(e.textOf(stored)) else e.textOf(stored))
  }

  /** One part of a natural key, or None when there is nothing to match on. */
  function PartOf(e: Entity, key: string, plain: Stored, viaRef: Fields): Option<Option<string>> {
    match RefFor(e.refs, key)
    case Some(ref) => Some(RefPart(e, FieldAt(viaRef, ref.docKey)))
    case None => if Blank(plain) then None else Some(KeyPart(e, plain))
  }

  function StoredKeyFrom(e: Entity, keys: seq<string>, fields: Fields): Option<Key> {
    if keys == [] then Some([]) else
    var part := PartOf(e, keys[0], FieldAt(fields, keys[0]), fields);
    var rest := StoredKeyFrom(e, keys[1..], fields);
    if part.None? || rest.None? then None else Some([part.value] + rest.value)
  }

  function StoredKey(e: Entity, doc: Doc): Option<Key> {
    StoredKeyFrom(e, e.naturalKey, doc.fields)
  }

  function CellAt(values: RowValues, column: Column): Value {
    if column in values then values[column] else Nothing
  }

  function RowKeyFrom(e: Entity, keys: seq<string>, values: RowValues, resolved: Fields): Option<Key> {
    if keys == [] then Some([]) else
    var part := PartOf(e, keys[0], Scalar(CellAt(values, Flat(keys[0]))), resolved);
    var rest := RowKeyFrom(e, keys[1..], values, resolved);
    if part.None? || rest.None? then None else Some([part.value] + rest.value)
  }

  predicate Keyless(e: Entity) { e.appendOnly || e.naturalKey == [] }

  function RowKey(e: Entity, values: RowValues, resolved: Fields): Option<Key> {
    if Keyless(e) then None else RowKeyFrom(e, e.naturalKey, values, resolved)
  }

  /** Reference columns to ids; None when some value matches nothing. */
  function ResolveFrom(e: Entity, refs: seq<Ref>, tables: Tables, values: RowValues): Option<Fields> {
    if refs == [] then Some(map[]) else
    var n := |refs| - 1;
    var before := ResolveFrom(e, refs[..n], tables, values);
    var cell := Scalar(CellAt(values, Flat(refs[n].key)));
    if before.None? || Blank(cell) then before else
    var text := if refs[n].foldCase then e.fold(e.textOf(cell)) else e.textOf(cell);
    if refs[n].key in tables && text in tables[refs[n].key]
    then Some(before.value[refs[n].docKey := Scalar(Text(tables[refs[n].key][text]))])
    else None
  }

  function Resolve(e: Entity, tables: Tables, values: RowValues): Option<Fields> {
    ResolveFrom(e, e.refs, tables, values)
  }

  // ---- what a row writes -----------------------------------------------------------------------------

  predicate Supplied(e: Entity, values: RowValues, column: Column) {
    && column in values && values[column] != Nothing && column in e.columns
    && (column.Flat? ==> RefFor(e.refs, column.name).None?)
  }

  function FlatNames(e: Entity, values: RowValues): set<string> {
    set c | c in values && c.Flat? && Supplied(e, values, c) :: c.name
  }

  function Parents(e: Entity, values: RowValues): set<string> {
    set c | c in values && c.Nested? && Supplied(e, values, c) :: c.parent
  }

  function ChildNames(e: Entity, values: RowValues, parent: string): set<string> {
    set c | c in values && c.Nested? && c.parent == parent && Supplied(e, values, c) :: c.child
  }

  function FlatPart(e: Entity, values: RowValues): Fields {
    map name | name in FlatNames(e, values) :: Scalar(values[Flat(name)])
  }

  function NestedPart(e: Entity, values: RowValues): Fields {
    map parent | parent in Parents(e, values) ::
      Sub(map child | child in ChildNames(e, values, parent) :: values[Nested(parent, child)])
  }

  /** Only what the row actually carries a value for; defaults only on a record it creates. */
  function DocFields(e: Entity, values: RowValues, resolved: Fields, creating: bool): Fields {
    (if creating then e.defaults else map[]) + FlatPart(e, values) + resolved + NestedPart(e, values)
  }

  /** An update sets scalars and merges sub-documents. */
  function Overlay(stored: Fields, change: Fields): Fields {
    stored + map name | name in change ::
      if change[name].Scalar? then change[name]
      else Sub((if name in stored && stored[name].Sub? then stored[name].children else map[])
               + change[name].children)
  }

  const OWNER: string := "owner_id"

  function NewDoc(e: Entity, fields: Fields, actor: string): Doc {
    var owned := if e.owned && OWNER !in fields then fields[OWNER := Scalar(Text(actor))] else fields;
    Doc(owned, false, actor, None)
  }

  function UpdatedDoc(doc: Doc, fields: Fields, actor: string): Doc {
    doc.(fields := Overlay(doc.fields, fields), updatedBy := Some(actor))
  }

  // ---- the reference: one row at a time, fresh lookup --------------------------------------------------

  /** The first live record with this natural key. */
  function FindLive(e: Entity, docs: seq<Doc>, key: Key): (found: Option<nat>)
    ensures found.Some? ==>
      found.value < |docs| && !docs[found.value].deleted && StoredKey(e, docs[found.value]) == Some(key)
  {
    if docs == [] then None else
    var n := |docs| - 1;
    var before := FindLive(e, docs[..n], key);
    if before.Some? then before
    else if !docs[n].deleted && StoredKey(e, docs[n]) == Some(key) then Some(n)
    else None
  }

  datatype Decision = Created | Updated | Rejected

  function Upsert(e: Entity, tables: Tables, docs: seq<Doc>, values: RowValues, actor: string): (seq<Doc>, Decision) {
    match Resolve(e, tables, values)
    case None => (docs, Rejected)
    case Some(resolved) =>
      var key := RowKey(e, values, resolved);
      var target := if key.None? then None else FindLive(e, docs, key.value);
      match target
      case None => (docs + [NewDoc(e, DocFields(e, values, resolved, true), actor)], Created)
      case Some(i) => (docs[i := UpdatedDoc(docs[i], DocFields(e, values, resolved, false), actor)], Updated)
  }

  function UpsertAll(e: Entity, tables: Tables, docs: seq<Doc>, rows: seq<Row>, actor: string)
    : (seq<Doc>, seq<Decision>)
  {
    if rows == [] then (docs, []) else
    var n := |rows| - 1;
    var (before, decisions) := UpsertAll(e, tables, docs, rows[..n], actor);
    var (after, decision) := Upsert(e, tables, before, rows[n].values, actor);
    (after, decisions + [decision])
  }

  // ---- the planner -------------------------------------------------------------------------------------

  type Index = map<Key, nat>

  /** Natural key to record, the oldest record winning. */
  function IndexOf(e: Entity, docs: seq<Doc>): Index {
    if docs == [] || Keyless(e) then map[] else
    var n := |docs| - 1;
    var before := IndexOf(e, docs[..n]);
    var key := StoredKey(e, docs[n]);
    if docs[n].deleted || key.None? || key.value in before then before else before[key.value := n]
  }

  datatype Planned = Planned(row: nat, key: Option<Key>, existing: Option<nat>, fields: Fields)

  datatype Plan = Plan(steps: seq<Planned>, keys: set<Key>, created: nat, updated: nat, rejected: seq<nat>)

  /** The decision for one row, from the index and the keys planned so far. */
  function PlanRow(e: Entity, tables: Tables, index: Index, plan: Plan, row: Row): Plan {
    match Resolve(e, tables, row.values)
    case None => plan.(rejected := plan.rejected + [row.number])
    case Some(resolved) =>
      var key := RowKey(e, row.values, resolved);
      var existing := if key.Some? && key.value in index then Some(index[key.value]) else None;
      var creating := existing.None? && !(key.Some? && key.value in plan.keys);
      Plan(plan.steps + [Planned(row.number, key, existing, DocFields(e, row.values, resolved, creating))],
           if creating && key.Some? then plan.keys + {key.value} else plan.keys,
           plan.created + (if creating then 1 else 0),
           plan.updated + (if creating then 0 else 1),
           plan.rejected)
  }

  function PlanRows(e: Entity, tables: Tables, index: Index, rows: seq<Row>): Plan {
    if rows == [] then Plan([], {}, 0, 0, [])
    else PlanRow(e, tables, index, PlanRows(e, tables, index, rows[..|rows| - 1]), rows[|rows| - 1])
  }

  datatype Applied = Applied(docs: seq<Doc>, placed: Index, created: nat, updated: nat, failed: seq<nat>)

  /** One planned row; a write the database refuses is reported and changes nothing. */
  function ApplyStep(e: Entity, s: Applied, step: Planned, actor: string, refused: bool): Applied {
    var target :=
      if step.existing.Some? then step.existing
      else if step.key.Some? && step.key.value in s.placed then Some(s.placed[step.key.value]) else None;
    if refused then s.(failed := s.failed + [step.row])
    else match target
    case None =>
      s.(docs := s.docs + [NewDoc(e, step.fields, actor)],
         placed := if step.key.Some? then s.placed[step.key.value := |s.docs|] else s.placed,
         created := s.created + 1)
    case Some(i) =>
      s.(docs := if i < |s.docs| then s.docs[i := UpdatedDoc(s.docs[i], step.fields, actor)] else s.docs,
         updated := s.updated + 1)
  }

  function ApplySteps(e: Entity, docs: seq<Doc>, steps: seq<Planned>, actor: string, refused: nat -> bool): Applied {
    if steps == [] then Applied(docs, map[], 0, 0, []) else
    var n := |steps| - 1;
    ApplyStep(e, ApplySteps(e, docs, steps[..n], actor, refused), steps[n], actor, refused(n))
  }

  // ---- what the engine's entities look like --------------------------------------------------------------

  /** A natural-key column is written by nothing but its own cell (or reference). */
  predicate KeyOk(e: Entity, key: string) {
    match RefFor(e.refs, key)
    case Some(ref) =>
      && Flat(ref.docKey) !in e.columns && (forall c :: c in e.columns && c.Nested? ==> c.parent != ref.docKey)
      && Blank(FieldAt(e.defaults, ref.docKey)) && !(e.owned && ref.docKey == OWNER)
    case None =>
      && Flat(key) in e.columns && (forall c :: c in e.columns && c.Nested? ==> c.parent != key)
      && (forall i :: 0 <= i < |e.refs| ==> e.refs[i].docKey != key)
      && Blank(FieldAt(e.defaults, key)) && !(e.owned && key == OWNER)
  }

  predicate WellFormed(e: Entity) {
    && (forall i :: 0 <= i < |e.naturalKey| ==> KeyOk(e, e.naturalKey[i]))
    && (forall c, d :: c in e.columns && d in e.columns && c.Nested? && d.Flat? ==> c.parent != d.name)
    && (forall c, i :: c in e.columns && c.Nested? && 0 <= i < |e.refs| ==> c.parent != e.refs[i].docKey)
  }

  lemma {:induction false} ResolvedKeys(e: Entity, refs: seq<Ref>, tables: Tables, values: RowValues)
    requires ResolveFrom(e, refs, tables, values).Some?
    ensures var resolved := ResolveFrom(e, refs, tables, values).value;
            && (forall name :: name in resolved ==> resolved[name].Scalar?)
            && (forall name :: name in resolved ==> exists i :: 0 <= i < |refs| && refs[i].docKey == name)
  {
    if refs != [] {
      var n := |refs| - 1;
      ResolvedKeys(e, refs[..n], tables, values);
      assert forall i :: 0 <= i < n ==> refs[..n][i] == refs[i];
    }
  }

  /** What a row's fields hold under a name. */
  lemma WrittenField(e: Entity, values: RowValues, resolved: Fields, creating: bool, name: string)
    requires forall c :: c in e.columns && c.Nested? ==> c.parent != name
    ensures FieldAt(DocFields(e, values, resolved, creating), name) ==
      (if name in resolved then resolved[name]
       else if Supplied(e, values, Flat(name)) then Scalar(values[Flat(name)])
       else if creating then FieldAt(e.defaults, name) else Scalar(Nothing))
    ensures name in DocFields(e, values, resolved, creating) <==>
      name in resolved || Supplied(e, values, Flat(name)) || (creating && name in e.defaults)
  {
  }

  lemma ResolvedLacks(e: Entity, tables: Tables, values: RowValues, name: string)
    requires Resolve(e, tables, values).Some? && forall i :: 0 <= i < |e.refs| ==> e.refs[i].docKey != name
    ensures name !in Resolve(e, tables, values).value
  {
    ResolvedKeys(e, e.refs, tables, values);
  }

  lemma OwnerElsewhere(e: Entity, fields: Fields, actor: string, name: string)
    requires !(e.owned && name == OWNER)
    ensures FieldAt(NewDoc(e, fields, actor).fields, name) == FieldAt(fields, name)
  {
  }

  lemma NewPart(e: Entity, tables: Tables, values: RowValues, creating: bool, key: string, actor: string)
    requires KeyOk(e, key) && Resolve(e, tables, values).Some?
    ensures var resolved := Resolve(e, tables, values).value;
            var doc := NewDoc(e, DocFields(e, values, resolved, creating), actor);
            PartOf(e, key, FieldAt(doc.fields, key), doc.fields)
            == PartOf(e, key, Scalar(CellAt(values, Flat(key))), resolved)
  {
    var resolved := Resolve(e, tables, values).value;
    match RefFor(e.refs, key)
    case Some(ref) =>
      WrittenField(e, values, resolved, creating, ref.docKey);
      OwnerElsewhere(e, DocFields(e, values, resolved, creating), actor, ref.docKey);
    case None =>
      ResolvedLacks(e, tables, values, key);
      WrittenField(e, values, resolved, creating, key);
      OwnerElsewhere(e, DocFields(e, values, resolved, creating), actor, key);
  }

  lemma OverlayField(stored: Fields, change: Fields, name: string)
    requires name in change ==> change[name].Scalar?
    ensures FieldAt(Overlay(stored, change), name)
         == if name in change then change[name] else FieldAt(stored, name)
  {
  }

  lemma UpdatedPart(e: Entity, tables: Tables, values: RowValues, fields: Fields, key: string)
    requires KeyOk(e, key) && Resolve(e, tables, values).Some?
    requires var resolved := Resolve(e, tables, values).value;
             PartOf(e, key, FieldAt(fields, key), fields)
             == PartOf(e, key, Scalar(CellAt(values, Flat(key))), resolved)
    ensures var after := Overlay(fields, DocFields(e, values, Resolve(e, tables, values).value, false));
            PartOf(e, key, FieldAt(after, key), after) == PartOf(e, key, FieldAt(fields, key), fields)
  {
    var resolved := Resolve(e, tables, values).value;
    var change := DocFields(e, values, resolved, false);
    ResolvedKeys(e, e.refs, tables, values);
    var name := match RefFor(e.refs, key) case Some(ref) => ref.docKey case None => key;
    WrittenField(e, values, resolved, false, name);
    assert name in change ==> change[name] == FieldAt(change, name);
    OverlayField(fields, change, name);
  }

  /** A record created from a row carries the row's key. */
  lemma {:induction false} NewKeyFrom(e: Entity, tables: Tables, values: RowValues, creating: bool,
                                       keys: seq<string>, actor: string)
    requires (forall i :: 0 <= i < |keys| ==> KeyOk(e, keys[i])) && Resolve(e, tables, values).Some?
    ensures var resolved := Resolve(e, tables, values).value;
            StoredKeyFrom(e, keys, NewDoc(e, DocFields(e, values, resolved, creating), actor).fields)
            == RowKeyFrom(e, keys, values, resolved)
  {
    if keys != [] {
      NewPart(e, tables, values, creating, keys[0], actor);
      NewKeyFrom(e, tables, values, creating, keys[1..], actor);
    }
  }

  /** An update leaves the key of the record it was matched to alone. */
  lemma {:induction false} UpdatedKeyFrom(
    e: Entity, tables: Tables, values: RowValues, keys: seq<string>, doc: Doc, actor: string)
    requires (forall i :: 0 <= i < |keys| ==> KeyOk(e, keys[i])) && Resolve(e, tables, values).Some?
    requires var resolved := Resolve(e, tables, values).value;
             StoredKeyFrom(e, keys, doc.fields) == RowKeyFrom(e, keys, values, resolved) != None
    ensures var resolved := Resolve(e, tables, values).value;
            StoredKeyFrom(e, keys, UpdatedDoc(doc, DocFields(e, values, resolved, false), actor).fields)
            == StoredKeyFrom(e, keys, doc.fields)
  {
    if keys != [] {
      var resolved := Resolve(e, tables, values).value;
      assert StoredKeyFrom(e, keys, doc.fields).value[0] == RowKeyFrom(e, keys, values, resolved).value[0];
      assert StoredKeyFrom(e, keys, doc.fields).value[1..] == StoredKeyFrom(e, keys[1..], doc.fields).value;
      assert RowKeyFrom(e, keys, values, resolved).value[1..] == RowKeyFrom(e, keys[1..], values, resolved).value;
      UpdatedPart(e, tables, values, doc.fields, keys[0]);
      UpdatedKeyFrom(e, tables, values, keys[1..], doc, actor);
    }
  }

  // ---- the index is the lookup, done once ------------------------------------------------------------------

  lemma FindLiveAppend(e: Entity, docs: seq<Doc>, doc: Doc, key: Key)
    ensures FindLive(e, docs + [doc], key) ==
      (if FindLive(e, docs, key).Some? then FindLive(e, docs, key)
       else if !doc.deleted && StoredKey(e, doc) == Some(key) then Some(|docs|) else None)
  {
    assert (docs + [doc])[..|docs|] == docs;
  }

  lemma {:induction false} FindLiveUpdate(e: Entity, docs: seq<Doc>, i: nat, doc: Doc, key: Key)
    requires i < |docs| && doc.deleted == docs[i].deleted && StoredKey(e, doc) == StoredKey(e, docs[i])
    ensures FindLive(e, docs[i := doc], key) == FindLive(e, docs, key)
  {
    var n := |docs| - 1;
    if i == n {
      assert docs[i := doc][..n] == docs[..n];
    } else {
      assert docs[i := doc][..n] == docs[..n][i := doc];
      FindLiveUpdate(e, docs[..n], i, doc, key);
    }
  }

  lemma {:induction false} IndexIsLookup(e: Entity, docs: seq<Doc>, key: Key)
    requires !Keyless(e)
    ensures FindLive(e, docs, key)
         == if key in IndexOf(e, docs) then Some(IndexOf(e, docs)[key]) else None
  {
    if docs != [] {
      IndexIsLookup(e, docs[..|docs| - 1], key);
    }
  }

  // ---- the planner refines the reference -------------------------------------------------------------------

  const Accepts: nat -> bool := (n: nat) => false

  function Count(decisions: seq<Decision>, d: Decision): nat {
    if decisions == [] then 0
    else Count(decisions[..|decisions| - 1], d) + (if decisions[|decisions| - 1] == d then 1 else 0)
  }

  /** What the plan, its application and the reference agree on after the same rows. */
  ghost predicate Agree(e: Entity, index: Index, plan: Plan, s: Applied, docs: seq<Doc>, decisions: seq<Decision>) {
    && s.docs == docs && s.placed.Keys == plan.keys && s.failed == []
    && s.created == plan.created == Count(decisions, Created)
    && s.updated == plan.updated == Count(decisions, Updated)
    && |plan.rejected| == Count(decisions, Rejected)
    && |plan.steps| == plan.created + plan.updated
    && AllLocated(e, index, s.placed, docs)
  }

  ghost predicate AllLocated(e: Entity, index: Index, placed: Index, docs: seq<Doc>) {
    !Keyless(e) ==> forall key :: Located(e, index, placed, docs, key)
  }

  ghost predicate Located(e: Entity, index: Index, placed: Index, docs: seq<Doc>, key: Key) {
    FindLive(e, docs, key) ==
      (if key in index then Some(index[key]) else if key in placed then Some(placed[key]) else None)
  }

  lemma CountSnoc(decisions: seq<Decision>, d: Decision, k: Decision)
    ensures Count(decisions + [d], k) == Count(decisions, k) + (if d == k then 1 else 0)
  {
    assert (decisions + [d])[..|decisions|] == decisions;
  }

  function PlacedAfter(index: Index, placed: Index, key: Option<Key>, at: nat): Index {
    if key.Some? && key.value !in index && key.value !in placed then placed[key.value := at] else placed
  }

  lemma StepLocates(e: Entity, tables: Tables, index: Index, placed: Index, docs: seq<Doc>, row: Row,
                    actor: string, k: Key)
    requires WellFormed(e) && !Keyless(e) && Resolve(e, tables, row.values).Some?
    requires forall key :: Located(e, index, placed, docs, key)
    ensures var key := RowKey(e, row.values, Resolve(e, tables, row.values).value);
            var after := Upsert(e, tables, docs, row.values, actor).0;
            Located(e, index, PlacedAfter(index, placed, key, |docs|), after, k)
  {
    var resolved := Resolve(e, tables, row.values).value;
    var key := RowKey(e, row.values, resolved);
    var decision := Upsert(e, tables, docs, row.values, actor).1;
    assert Located(e, index, placed, docs, k);
    if key.Some? {
      assert Located(e, index, placed, docs, key.value);
    }
    if decision.Created? {
      NewKeyFrom(e, tables, row.values, true, e.naturalKey, actor);
      FindLiveAppend(e, docs, NewDoc(e, DocFields(e, row.values, resolved, true), actor), k);
    } else {
      var i := FindLive(e, docs, key.value).value;
      UpdatedKeyFrom(e, tables, row.values, e.naturalKey, docs[i], actor);
      FindLiveUpdate(e, docs, i, UpdatedDoc(docs[i], DocFields(e, row.values, resolved, false), actor), k);
    }
  }

  /** The decision for a row is the reference's. */
  lemma DecisionIs(e: Entity, tables: Tables, index: Index, plan: Plan, placed: Index, docs: seq<Doc>,
                   row: Row, actor: string)
    requires Resolve(e, tables, row.values).Some? && placed.Keys == plan.keys && AllLocated(e, index, placed, docs)
    ensures var next := PlanRow(e, tables, index, plan, row);
            var decision := Upsert(e, tables, docs, row.values, actor).1;
            && |next.steps| == |plan.steps| + 1 && next.steps[..|plan.steps|] == plan.steps
            && next.rejected == plan.rejected && !decision.Rejected?
            && next.created == plan.created + (if decision.Created? then 1 else 0)
            && next.updated == plan.updated + (if decision.Updated? then 1 else 0)
  {
    var key := RowKey(e, row.values, Resolve(e, tables, row.values).value);
    if key.Some? {
      assert Located(e, index, placed, docs, key.value);
    }
  }

  /** The plan's decision for a row is the reference's, and applying it has the same effect. */
  lemma StepAgrees(e: Entity, tables: Tables, index: Index, plan: Plan, s: Applied, docs: seq<Doc>,
                   row: Row, actor: string)
    requires Resolve(e, tables, row.values).Some? && s.docs == docs && s.placed.Keys == plan.keys
    requires AllLocated(e, index, s.placed, docs)
    ensures var next := PlanRow(e, tables, index, plan, row);
            var (after, decision) := Upsert(e, tables, docs, row.values, actor);
            var key := RowKey(e, row.values, Resolve(e, tables, row.values).value);
            var n := |plan.steps|;
            && |next.steps| == n + 1 && next.steps[..n] == plan.steps && next.rejected == plan.rejected
            && next.created == plan.created + (if decision.Created? then 1 else 0)
            && next.updated == plan.updated + (if decision.Updated? then 1 else 0)
            && !decision.Rejected?
            && var t := ApplyStep(e, s, next.steps[n], actor, false);
               && t.docs == after && t.failed == s.failed
               && t.placed == PlacedAfter(index, s.placed, key, |docs|) && t.placed.Keys == next.keys
               && t.created == s.created + (if decision.Created? then 1 else 0)
               && t.updated == s.updated + (if decision.Updated? then 1 else 0)
  {
    DecisionIs(e, tables, index, plan, s.placed, docs, row, actor);
    var key := RowKey(e, row.values, Resolve(e, tables, row.values).value);
    if key.Some? {
      assert Located(e, index, s.placed, docs, key.value);
    }
  }

  lemma AllStayLocated(e: Entity, tables: Tables, index: Index, placed: Index, docs: seq<Doc>, row: Row, actor: string)
    requires WellFormed(e) && Resolve(e, tables, row.values).Some? && AllLocated(e, index, placed, docs)
    ensures var key := RowKey(e, row.values, Resolve(e, tables, row.values).value);
            AllLocated(e, index, PlacedAfter(index, placed, key, |docs|), Upsert(e, tables, docs, row.values, actor).0)
  {
    if !Keyless(e) {
      var key := RowKey(e, row.values, Resolve(e, tables, row.values).value);
      forall k
        ensures Located(e, index, PlacedAfter(index, placed, key, |docs|),
                        Upsert(e, tables, docs, row.values, actor).0, k)
      {
        StepLocates(e, tables, index, placed, docs, row, actor, k);
      }
    }
  }

  lemma PlanStep(e: Entity, tables: Tables, index: Index, plan: Plan, s: Applied, docs: seq<Doc>,
                 decisions: seq<Decision>, row: Row, actor: string)
    requires WellFormed(e) && Agree(e, index, plan, s, docs, decisions)
    ensures var next := PlanRow(e, tables, index, plan, row);
            var (after, decision) := Upsert(e, tables, docs, row.values, actor);
            && |plan.steps| <= |next.steps| <= |plan.steps| + 1 && next.steps[..|plan.steps|] == plan.steps
            && Agree(e, index, next,
                 if |next.steps| == |plan.steps| then s
                 else ApplyStep(e, s, next.steps[|plan.steps|], actor, false),
                 after, decisions + [decision])
  {
    var (after, decision) := Upsert(e, tables, docs, row.values, actor);
    CountSnoc(decisions, decision, Created);
    CountSnoc(decisions, decision, Updated);
    CountSnoc(decisions, decision, Rejected);
    if Resolve(e, tables, row.values).Some? {
      StepAgrees(e, tables, index, plan, s, docs, row, actor);
      AllStayLocated(e, tables, index, s.placed, docs, row, actor);
    }
  }

  lemma {:induction false} PlanAgrees(
    e: Entity, tables: Tables, docs: seq<Doc>, rows: seq<Row>, actor: string)
    requires WellFormed(e)
    ensures var plan := PlanRows(e, tables, IndexOf(e, docs), rows);
            var (after, decisions) := UpsertAll(e, tables, docs, rows, actor);
            Agree(e, IndexOf(e, docs), plan, ApplySteps(e, docs, plan.steps, actor, Accepts), after, decisions)
  {
    var index := IndexOf(e, docs);
    if rows == [] {
      forall key | !Keyless(e)
        ensures Located(e, index, map[], docs, key)
      {
        IndexIsLookup(e, docs, key);
      }
    } else {
      var n := |rows| - 1;
      PlanAgrees(e, tables, docs, rows[..n], actor);
      var plan := PlanRows(e, tables, index, rows[..n]);
      var s := ApplySteps(e, docs, plan.steps, actor, Accepts);
      var (before, decisions) := UpsertAll(e, tables, docs, rows[..n], actor);
      PlanStep(e, tables, index, plan, s, before, decisions, rows[n], actor);
    }
  }

  /** What the planner decided on the row that took it from one plan to the next. */
  function DecisionBetween(plan: Plan, next: Plan): Decision {
    if |next.steps| == |plan.steps| then Rejected else if next.created > plan.created then Created else Updated
  }

  /** The planner's decisions, row by row. */
  function PlanDecisions(e: Entity, tables: Tables, index: Index, rows: seq<Row>): seq<Decision> {
    if rows == [] then [] else
    var before := rows[..|rows| - 1];
    PlanDecisions(e, tables, index, before)
      + [DecisionBetween(PlanRows(e, tables, index, before), PlanRows(e, tables, index, rows))]
  }

  lemma DecisionAgrees(e: Entity, tables: Tables, docs: seq<Doc>, rows: seq<Row>, actor: string)
    requires WellFormed(e) && rows != []
    ensures var index, before := IndexOf(e, docs), rows[..|rows| - 1];
            DecisionBetween(PlanRows(e, tables, index, before), PlanRows(e, tables, index, rows))
            == Upsert(e, tables, UpsertAll(e, tables, docs, before, actor).0, rows[|rows| - 1].values, actor).1
  {
    var index, n := IndexOf(e, docs), |rows| - 1;
    PlanAgrees(e, tables, docs, rows[..n], actor);
    var plan := PlanRows(e, tables, index, rows[..n]);
    if Resolve(e, tables, rows[n].values).Some? {
      StepAgrees(e, tables, index, plan, ApplySteps(e, docs, plan.steps, actor, Accepts),
        UpsertAll(e, tables, docs, rows[..n], actor).0, rows[n], actor);
    }
  }

  lemma {:induction false} DecisionsAgree(e: Entity, tables: Tables, docs: seq<Doc>, rows: seq<Row>, actor: string)
    requires WellFormed(e)
    ensures PlanDecisions(e, tables, IndexOf(e, docs), rows) == UpsertAll(e, tables, docs, rows, actor).1
  {
    if rows != [] {
      DecisionsAgree(e, tables, docs, rows[..|rows| - 1], actor);
      DecisionAgrees(e, tables, docs, rows, actor);
    }
  }

  /**
   The once-indexed, plan-then-apply import ends in the same collection, with the same decision for
   every row and the same counts, as upserting the rows one by one with a fresh lookup each time.
   */
  lemma ImportRefinesUpsert(e: Entity, tables: Tables, docs: seq<Doc>, rows: seq<Row>, actor: string)
    requires WellFormed(e)
    ensures var plan := PlanRows(e, tables, IndexOf(e, docs), rows);
            var s := ApplySteps(e, docs, plan.steps, actor, Accepts);
            var (after, decisions) := UpsertAll(e, tables, docs, rows, actor);
            && s.docs == after
            && PlanDecisions(e, tables, IndexOf(e, docs), rows) == decisions
            && s.created == plan.created == Count(decisions, Created)
            && s.updated == plan.updated == Count(decisions, Updated)
            && |plan.rejected| == Count(decisions, Rejected)
  {
    PlanAgrees(e, tables, docs, rows, actor);
    DecisionsAgree(e, tables, docs, rows, actor);
  }

  // ---- importing the same file again ----------------------------------------------------------------------

  function NestedNames(e: Entity): set<string> {
    set c | c in e.columns && c.Nested? :: c.parent
  }

  /** Sub-documents stand exactly under the names the entity nests columns in. */
  ghost predicate Kinded(e: Entity, change: Fields) {
    forall name :: name in change ==> (change[name].Sub? <==> name in NestedNames(e))
  }

  lemma ChangeKinded(e: Entity, tables: Tables, values: RowValues)
    requires WellFormed(e) && Resolve(e, tables, values).Some?
    ensures Kinded(e, DocFields(e, values, Resolve(e, tables, values).value, false))
  {
    ResolvedKeys(e, e.refs, tables, values);
  }

  lemma OverlayAt(stored: Fields, change: Fields, name: string)
    ensures name in Overlay(stored, change) <==> name in stored || name in change
    ensures name in change && change[name].Scalar? ==> Overlay(stored, change)[name] == change[name]
    ensures name in change && change[name].Sub? ==>
      Overlay(stored, change)[name] ==
      Sub((if name in stored && stored[name].Sub? then stored[name].children else map[]) + change[name].children)
    ensures name in stored && name !in change ==> Overlay(stored, change)[name] == stored[name]
  {
  }

  function At(fields: Fields, name: string): Option<Stored> {
    if name in fields then Some(fields[name]) else None
  }

  /** One field of an overlay. */
  function Laid(stored: Option<Stored>, change: Option<Stored>): Option<Stored> {
    if change.None? then stored
    else if change.value.Scalar? then change
    else Some(Sub((if stored.Some? && stored.value.Sub? then stored.value.children else map[])
                  + change.value.children))
  }

  lemma OverlayIsPointwise(stored: Fields, change: Fields, name: string)
    ensures At(Overlay(stored, change), name) == Laid(At(stored, name), At(change, name))
  {
    OverlayAt(stored, change, name);
  }

  lemma LaidAssociates(d: Option<Stored>, u: Option<Stored>, v: Option<Stored>)
    requires u.Some? && v.Some? ==> (u.value.Sub? <==> v.value.Sub?)
    ensures Laid(Laid(d, u), v) == Laid(d, Laid(u, v))
  {
    if u.Some? && v.Some? && v.value.Sub? {
      var base := if d.Some? && d.value.Sub? then d.value.children else map[];
      assert (base + u.value.children) + v.value.children == base + (u.value.children + v.value.children);
    } else if u.None? && v.Some? && v.value.Sub? {
      assert map[] + v.value.children == v.value.children;
    }
  }

  lemma AssociatesAt(e: Entity, d: Fields, u: Fields, v: Fields, name: string)
    requires Kinded(e, u) && Kinded(e, v)
    ensures At(Overlay(Overlay(d, u), v), name) == At(Overlay(d, Overlay(u, v)), name)
    ensures name in Overlay(u, v) ==> (Overlay(u, v)[name].Sub? <==> name in NestedNames(e))
  {
    OverlayIsPointwise(d, u, name);
    OverlayIsPointwise(Overlay(d, u), v, name);
    OverlayIsPointwise(u, v, name);
    OverlayIsPointwise(d, Overlay(u, v), name);
    LaidAssociates(At(d, name), At(u, name), At(v, name));
  }

  lemma OverlayAssociates(e: Entity, d: Fields, u: Fields, v: Fields)
    requires Kinded(e, u) && Kinded(e, v)
    ensures Overlay(Overlay(d, u), v) == Overlay(d, Overlay(u, v))
    ensures Kinded(e, Overlay(u, v))
  {
    var left, right := Overlay(Overlay(d, u), v), Overlay(d, Overlay(u, v));
    forall name
      ensures At(left, name) == At(right, name)
      ensures name in Overlay(u, v) ==> (Overlay(u, v)[name].Sub? <==> name in NestedNames(e))
    {
      AssociatesAt(e, d, u, v, name);
    }
    SameFields(left, right);
  }

  lemma SameFields(a: Fields, b: Fields)
    requires forall name :: At(a, name) == At(b, name)
    ensures a == b
  {
    assert forall name :: name in a <==> At(a, name).Some?;
    assert forall name :: name in b <==> At(b, name).Some?;
    assert forall name :: name in a ==> At(a, name) == Some(a[name]);
    assert forall name :: name in b ==> At(b, name) == Some(b[name]);
  }

  /** Laying a change over fields that already hold it changes nothing. */
  lemma OverlayHeld(fields: Fields, change: Fields)
    requires forall name :: name in change ==> name in fields && fields[name] == change[name]
    ensures Overlay(fields, change) == fields
  {
    forall name | name in fields
      ensures Overlay(fields, change)[name] == fields[name]
    {
      OverlayAt(fields, change, name);
      if name in change && change[name].Sub? {
        assert change[name].children + change[name].children == change[name].children;
      }
    }
  }

  lemma OverlaySelf(u: Fields)
    ensures Overlay(u, u) == u && Overlay(map[], u) == u
  {
    OverlayHeld(u, u);
    forall name | name in u
      ensures Overlay(map[], u)[name] == u[name]
    {
      OverlayAt(map[], u, name);
      if u[name].Sub? {
        assert map[] + u[name].children == u[name].children;
      }
    }
  }

  function OverlaySeq(d: Fields, changes: seq<Fields>): Fields {
    if changes == [] then d
    else Overlay(OverlaySeq(d, changes[..|changes| - 1]), changes[|changes| - 1])
  }

  lemma {:induction false} OverlaySeqIsOne(e: Entity, d: Fields, changes: seq<Fields>)
    requires forall i :: 0 <= i < |changes| ==> Kinded(e, changes[i])
    ensures Kinded(e, OverlaySeq(map[], changes))
    ensures OverlaySeq(d, changes) == Overlay(d, OverlaySeq(map[], changes))
  {
    if changes != [] {
      var n := |changes| - 1;
      OverlaySeqIsOne(e, d, changes[..n]);
      OverlayAssociates(e, d, OverlaySeq(map[], changes[..n]), changes[n]);
    }
  }

  lemma OverlaySeqTwice(e: Entity, d: Fields, changes: seq<Fields>)
    requires forall i :: 0 <= i < |changes| ==> Kinded(e, changes[i])
    ensures OverlaySeq(OverlaySeq(d, changes), changes) == OverlaySeq(d, changes)
  {
    var all := OverlaySeq(map[], changes);
    OverlaySeqIsOne(e, d, changes);
    OverlaySeqIsOne(e, OverlaySeq(d, changes), changes);
    OverlayAssociates(e, d, all, all);
    OverlaySelf(all);
  }

  /** The row resolves, and has a natural key. */
  predicate Keyed(e: Entity, tables: Tables, values: RowValues) {
    Resolve(e, tables, values).Some? && RowKey(e, values, Resolve(e, tables, values).value).Some?
  }

  function KeyOf(e: Entity, tables: Tables, values: RowValues): Key
    requires Keyed(e, tables, values)
  {
    RowKey(e, values, Resolve(e, tables, values).value).value
  }

  function ChangeOf(e: Entity, tables: Tables, values: RowValues): Fields
    requires Keyed(e, tables, values)
  {
    DocFields(e, values, Resolve(e, tables, values).value, false)
  }

  /** The changes the rows make to the record with this key. */
  function ChangesTo(e: Entity, tables: Tables, rows: seq<Row>, key: Key): seq<Fields> {
    if rows == [] then [] else
    var n := |rows| - 1;
    ChangesTo(e, tables, rows[..n], key) +
    (if Keyed(e, tables, rows[n].values) && KeyOf(e, tables, rows[n].values) == key
     then [ChangeOf(e, tables, rows[n].values)] else [])
  }

  lemma {:induction false} ChangesKinded(e: Entity, tables: Tables, rows: seq<Row>, key: Key)
    requires WellFormed(e)
    ensures forall i :: 0 <= i < |ChangesTo(e, tables, rows, key)| ==> Kinded(e, ChangesTo(e, tables, rows, key)[i])
  {
    if rows != [] {
      var n := |rows| - 1;
      ChangesKinded(e, tables, rows[..n], key);
      if Keyed(e, tables, rows[n].values) {
        ChangeKinded(e, tables, rows[n].values);
      }
    }
  }

  /** What one keyed row does to the collection and to every lookup in it. */
  lemma UpsertEffect(e: Entity, tables: Tables, docs: seq<Doc>, values: RowValues, actor: string, k: Key)
    requires WellFormed(e) && Keyed(e, tables, values)
    ensures var key := KeyOf(e, tables, values);
            var (after, decision) := Upsert(e, tables, docs, values, actor);
            var found := FindLive(e, docs, key);
            if found.Some? then
              && decision.Updated? && |after| == |docs|
              && after == docs[found.value := UpdatedDoc(docs[found.value], ChangeOf(e, tables, values), actor)]
              && FindLive(e, after, k) == FindLive(e, docs, k)
            else
              && decision.Created? && |after| == |docs| + 1 && after[..|docs|] == docs
              && FindLive(e, after, k) == (if k == key then Some(|docs|) else FindLive(e, docs, k))
  {
    var key := KeyOf(e, tables, values);
    var found := FindLive(e, docs, key);
    var resolved := Resolve(e, tables, values).value;
    if found.Some? {
      UpdatedKeyFrom(e, tables, values, e.naturalKey, docs[found.value], actor);
      FindLiveUpdate(e, docs, found.value,
        UpdatedDoc(docs[found.value], ChangeOf(e, tables, values), actor), k);
    } else {
      NewKeyFrom(e, tables, values, true, e.naturalKey, actor);
      FindLiveAppend(e, docs, NewDoc(e, DocFields(e, values, resolved, true), actor), k);
    }
  }

  /** Later sources of a field win: sub-documents, references, cells, then defaults. */
  lemma FieldSource(e: Entity, values: RowValues, resolved: Fields, creating: bool, name: string)
    ensures At(DocFields(e, values, resolved, creating), name) ==
      (if name in NestedPart(e, values) then At(NestedPart(e, values), name)
       else if name in resolved then At(resolved, name)
       else if name in FlatPart(e, values) then At(FlatPart(e, values), name)
       else if creating then At(e.defaults, name) else None)
  {
  }

  lemma CreatedHolds(e: Entity, values: RowValues, resolved: Fields, actor: string, name: string)
    requires name in DocFields(e, values, resolved, false)
    ensures var fields := NewDoc(e, DocFields(e, values, resolved, true), actor).fields;
            At(fields, name) == At(DocFields(e, values, resolved, false), name)
  {
    FieldSource(e, values, resolved, true, name);
    FieldSource(e, values, resolved, false, name);
  }

  /** A record just created from a row already holds everything the row would update. */
  lemma CreatedAbsorbs(e: Entity, tables: Tables, values: RowValues, actor: string)
    requires Keyed(e, tables, values)
    ensures var fields := NewDoc(e, DocFields(e, values, Resolve(e, tables, values).value, true), actor).fields;
            Overlay(fields, ChangeOf(e, tables, values)) == fields
  {
    var resolved := Resolve(e, tables, values).value;
    var fields := NewDoc(e, DocFields(e, values, resolved, true), actor).fields;
    forall name | name in ChangeOf(e, tables, values)
      ensures name in fields && fields[name] == ChangeOf(e, tables, values)[name]
    {
      CreatedHolds(e, values, resolved, actor, name);
      assert At(fields, name) == Some(ChangeOf(e, tables, values)[name]);
    }
    OverlayHeld(fields, ChangeOf(e, tables, values));
  }

  /** Every looked-up record is some base with the rows' changes laid over it in order. */
  ghost predicate Built(e: Entity, tables: Tables, rows: seq<Row>, fields: Fields, key: Key) {
    exists base :: fields == OverlaySeq(base, ChangesTo(e, tables, rows, key))
  }

  ghost predicate AllKeyed(e: Entity, tables: Tables, rows: seq<Row>) {
    forall i :: 0 <= i < |rows| ==> Keyed(e, tables, rows[i].values)
  }

  lemma AllKeyedPrefix(e: Entity, tables: Tables, rows: seq<Row>)
    requires rows != [] && AllKeyed(e, tables, rows)
    ensures AllKeyed(e, tables, rows[..|rows| - 1]) && Keyed(e, tables, rows[|rows| - 1].values)
  {
  }

  lemma UpsertAllLast(e: Entity, tables: Tables, docs: seq<Doc>, rows: seq<Row>, actor: string)
    requires rows != []
    ensures var before := UpsertAll(e, tables, docs, rows[..|rows| - 1], actor).0;
            UpsertAll(e, tables, docs, rows, actor).0
            == Upsert(e, tables, before, rows[|rows| - 1].values, actor).0
  {
  }

  lemma FindsStep(e: Entity, tables: Tables, before: seq<Doc>, values: RowValues, actor: string, k: Key)
    requires WellFormed(e) && Keyed(e, tables, values)
    requires KeyAt(e, tables, values) == k || FindLive(e, before, k).Some?
    ensures FindLive(e, Upsert(e, tables, before, values, actor).0, k).Some?
  {
    UpsertEffect(e, tables, before, values, actor, k);
  }

  ghost predicate SomeRowHas(e: Entity, tables: Tables, rows: seq<Row>, k: Key) {
    exists i :: 0 <= i < |rows| && KeyAt(e, tables, rows[i].values) == k
  }

  lemma SomeEarlierRow(e: Entity, tables: Tables, rows: seq<Row>, k: Key)
    requires SomeRowHas(e, tables, rows, k)
    ensures KeyAt(e, tables, rows[|rows| - 1].values) == k || SomeRowHas(e, tables, rows[..|rows| - 1], k)
  {
    var i :| 0 <= i < |rows| && KeyAt(e, tables, rows[i].values) == k;
    if i < |rows| - 1 {
      assert rows[..|rows| - 1][i] == rows[i];
    }
  }

  lemma {:induction false} PassFinds(
    e: Entity, tables: Tables, docs: seq<Doc>, rows: seq<Row>, actor: string, k: Key)
    requires WellFormed(e) && AllKeyed(e, tables, rows) && SomeRowHas(e, tables, rows, k)
    ensures FindLive(e, UpsertAll(e, tables, docs, rows, actor).0, k).Some?
  {
    var n := |rows| - 1;
    AllKeyedPrefix(e, tables, rows);
    SomeEarlierRow(e, tables, rows, k);
    if SomeRowHas(e, tables, rows[..n], k) {
      PassFinds(e, tables, docs, rows[..n], actor, k);
    }
    FindsStep(e, tables, UpsertAll(e, tables, docs, rows[..n], actor).0, rows[n].values, actor, k);
    UpsertAllLast(e, tables, docs, rows, actor);
  }

  lemma {:induction false} PassBuilds(
    e: Entity, tables: Tables, docs: seq<Doc>, rows: seq<Row>, actor: string, k: Key)
    requires WellFormed(e) && AllKeyed(e, tables, rows)
    ensures var after := UpsertAll(e, tables, docs, rows, actor).0;
            && (FindLive(e, after, k).Some? ==> Built(e, tables, rows, after[FindLive(e, after, k).value].fields, k))
            && (FindLive(e, after, k).None? ==> ChangesTo(e, tables, rows, k) == [])
  {
    if rows == [] {
      if FindLive(e, docs, k).Some? {
        var fields := docs[FindLive(e, docs, k).value].fields;
        assert fields == OverlaySeq(fields, ChangesTo(e, tables, rows, k));
      }
    } else {
      var n := |rows| - 1;
      PassBuilds(e, tables, docs, rows[..n], actor, k);
      RowBuilds(e, tables, UpsertAll(e, tables, docs, rows[..n], actor).0, rows, actor, k);
    }
  }

  lemma RowBuilds(e: Entity, tables: Tables, before: seq<Doc>, rows: seq<Row>, actor: string, k: Key)
    requires WellFormed(e) && rows != [] && Keyed(e, tables, rows[|rows| - 1].values)
    requires var n := |rows| - 1;
             && (FindLive(e, before, k).Some? ==>
                   Built(e, tables, rows[..n], before[FindLive(e, before, k).value].fields, k))
             && (FindLive(e, before, k).None? ==> ChangesTo(e, tables, rows[..n], k) == [])
    ensures var after := Upsert(e, tables, before, rows[|rows| - 1].values, actor).0;
            && (FindLive(e, after, k).Some? ==> Built(e, tables, rows, after[FindLive(e, after, k).value].fields, k))
            && (FindLive(e, after, k).None? ==> ChangesTo(e, tables, rows, k) == [])
  {
    var n := |rows| - 1;
    var values := rows[n].values;
    var after := Upsert(e, tables, before, values, actor).0;
    UpsertEffect(e, tables, before, values, actor, k);
    var change := ChangeOf(e, tables, values);
    var earlier, all := ChangesTo(e, tables, rows[..n], k), ChangesTo(e, tables, rows, k);
    if KeyOf(e, tables, values) == k {
      assert all == earlier + [change] && all[..|earlier|] == earlier;
      if FindLive(e, before, k).Some? {
        var base :| before[FindLive(e, before, k).value].fields == OverlaySeq(base, earlier);
        assert after[FindLive(e, after, k).value].fields == OverlaySeq(base, all);
      } else {
        CreatedAbsorbs(e, tables, values, actor);
        var fields := after[|before|].fields;
        assert OverlaySeq(fields, []) == fields;
        assert fields == OverlaySeq(fields, all);
      }
    } else {
      assert all == earlier;
      if FindLive(e, before, k).Some? {
        var base :| before[FindLive(e, before, k).value].fields == OverlaySeq(base, earlier);
        var i := FindLive(e, before, k).value;
        assert after[i].fields == before[i].fields == OverlaySeq(base, all);
      }
    }
  }

  ghost predicate AllFound(e: Entity, tables: Tables, docs: seq<Doc>, rows: seq<Row>) {
    forall j :: 0 <= j < |rows| ==> FindLive(e, docs, KeyAt(e, tables, rows[j].values)).Some?
  }

  function KeyAt(e: Entity, tables: Tables, values: RowValues): Key {
    if Keyed(e, tables, values) then KeyOf(e, tables, values) else []
  }

  lemma AllFoundPrefix(e: Entity, tables: Tables, docs: seq<Doc>, rows: seq<Row>)
    requires rows != [] && AllFound(e, tables, docs, rows)
    ensures AllFound(e, tables, docs, rows[..|rows| - 1])
    ensures FindLive(e, docs, KeyAt(e, tables, rows[|rows| - 1].values)).Some?
  {
    assert forall j :: 0 <= j < |rows| - 1 ==> rows[..|rows| - 1][j] == rows[j];
  }

  /** Where every row finds its record, a pass creates nothing and moves no lookup. */
  lemma {:induction false} PassUpdates(
    e: Entity, tables: Tables, docs: seq<Doc>, rows: seq<Row>, actor: string, k: Key)
    requires WellFormed(e) && AllKeyed(e, tables, rows) && AllFound(e, tables, docs, rows)
    ensures var (after, decisions) := UpsertAll(e, tables, docs, rows, actor);
            && |after| == |docs| && Count(decisions, Created) == 0
            && FindLive(e, after, k) == FindLive(e, docs, k)
  {
    if rows != [] {
      var n := |rows| - 1;
      assert forall j :: 0 <= j < n ==> rows[..n][j] == rows[j];
      var (before, decisions) := UpsertAll(e, tables, docs, rows[..n], actor);
      PassUpdates(e, tables, docs, rows[..n], actor, k);
      PassUpdates(e, tables, docs, rows[..n], actor, KeyOf(e, tables, rows[n].values));
      UpsertEffect(e, tables, before, rows[n].values, actor, k);
      CountSnoc(decisions, Updated, Created);
    }
  }

  lemma OverlayRow(e: Entity, tables: Tables, before: seq<Doc>, rows: seq<Row>, actor: string, i: nat, k: Key,
                   base: Fields)
    requires WellFormed(e) && rows != [] && Keyed(e, tables, rows[|rows| - 1].values) && i < |before|
    requires FindLive(e, before, KeyOf(e, tables, rows[|rows| - 1].values)).Some?
    requires FindLive(e, before, k) == Some(i)
             || FindLive(e, before, KeyOf(e, tables, rows[|rows| - 1].values)) != Some(i)
    requires before[i].fields == (if FindLive(e, before, k) == Some(i)
      then OverlaySeq(base, ChangesTo(e, tables, rows[..|rows| - 1], k)) else base)
    ensures var after := Upsert(e, tables, before, rows[|rows| - 1].values, actor).0;
            && i < |after| && after[i].deleted == before[i].deleted && after[i].createdBy == before[i].createdBy
            && after[i].fields == (if FindLive(e, before, k) == Some(i)
                                   then OverlaySeq(base, ChangesTo(e, tables, rows, k)) else base)
  {
    var n := |rows| - 1;
    var key := KeyOf(e, tables, rows[n].values);
    UpsertEffect(e, tables, before, rows[n].values, actor, k);
    assert FindLive(e, before, key) == Some(i) && FindLive(e, before, k) == Some(i) ==> key == k;
    ChangesSnoc(e, tables, rows, k);
    OverlaySeqSnoc(base, ChangesTo(e, tables, rows[..n], k), ChangeOf(e, tables, rows[n].values));
  }

  ghost predicate NoRowHits(e: Entity, tables: Tables, docs: seq<Doc>, rows: seq<Row>, i: nat) {
    forall j :: 0 <= j < |rows| ==> FindLive(e, docs, KeyAt(e, tables, rows[j].values)) != Some(i)
  }

  lemma NoRowHitsPrefix(e: Entity, tables: Tables, docs: seq<Doc>, rows: seq<Row>, i: nat)
    requires rows != [] && NoRowHits(e, tables, docs, rows, i)
    ensures NoRowHits(e, tables, docs, rows[..|rows| - 1], i)
    ensures FindLive(e, docs, KeyAt(e, tables, rows[|rows| - 1].values)) != Some(i)
  {
    assert forall j :: 0 <= j < |rows| - 1 ==> rows[..|rows| - 1][j] == rows[j];
  }

  /** ... and only lays the rows' changes over the records found. */
  lemma {:induction false} PassOverlays(
    e: Entity, tables: Tables, docs: seq<Doc>, rows: seq<Row>, actor: string, i: nat, k: Key)
    requires WellFormed(e) && AllKeyed(e, tables, rows) && AllFound(e, tables, docs, rows)
    requires i < |docs|
    requires FindLive(e, docs, k) == Some(i) || NoRowHits(e, tables, docs, rows, i)
    ensures var after := UpsertAll(e, tables, docs, rows, actor).0;
            && |after| == |docs|
            && after[i].deleted == docs[i].deleted && after[i].createdBy == docs[i].createdBy
            && after[i].fields == (if FindLive(e, docs, k) == Some(i)
                                   then OverlaySeq(docs[i].fields, ChangesTo(e, tables, rows, k)) else docs[i].fields)
  {
    if rows != [] {
      var n := |rows| - 1;
      AllKeyedPrefix(e, tables, rows);
      AllFoundPrefix(e, tables, docs, rows);
      var before := UpsertAll(e, tables, docs, rows[..n], actor).0;
      var key := KeyAt(e, tables, rows[n].values);
      if FindLive(e, docs, k) != Some(i) {
        NoRowHitsPrefix(e, tables, docs, rows, i);
      }
      PassUpdates(e, tables, docs, rows[..n], actor, key);
      PassUpdates(e, tables, docs, rows[..n], actor, k);
      PassOverlays(e, tables, docs, rows[..n], actor, i, k);
      UpsertAllLast(e, tables, docs, rows, actor);
      PassUpdates(e, tables, docs, rows, actor, k);
      OverlayRow(e, tables, before, rows, actor, i, k, docs[i].fields);
    }
  }

  lemma ChangesSnoc(e: Entity, tables: Tables, rows: seq<Row>, k: Key)
    requires rows != [] && Keyed(e, tables, rows[|rows| - 1].values)
    ensures var n := |rows| - 1;
            ChangesTo(e, tables, rows, k) == ChangesTo(e, tables, rows[..n], k)
              + (if KeyOf(e, tables, rows[n].values) == k then [ChangeOf(e, tables, rows[n].values)] else [])
  {
  }

  lemma OverlaySeqSnoc(d: Fields, changes: seq<Fields>, change: Fields)
    ensures OverlaySeq(d, changes + [change]) == Overlay(OverlaySeq(d, changes), change)
    ensures OverlaySeq(d, changes + []) == OverlaySeq(d, changes)
  {
    assert (changes + [change])[..|changes|] == changes;
    assert changes + [] == changes;
  }

  /** The references of every row match the same ids in both sets of tables. */
  ghost predicate ResolveAlike(e: Entity, tables: Tables, later: Tables, rows: seq<Row>) {
    forall j :: 0 <= j < |rows| ==> Resolve(e, later, rows[j].values) == Resolve(e, tables, rows[j].values)
  }

  lemma {:induction false} SameTablesSameUpserts(
    e: Entity, tables: Tables, later: Tables, docs: seq<Doc>, rows: seq<Row>, actor: string)
    requires ResolveAlike(e, tables, later, rows)
    ensures UpsertAll(e, later, docs, rows, actor) == UpsertAll(e, tables, docs, rows, actor)
  {
    if rows != [] {
      var n := |rows| - 1;
      assert forall j :: 0 <= j < n ==> rows[..n][j] == rows[j];
      SameTablesSameUpserts(e, tables, later, docs, rows[..n], actor);
      assert Resolve(e, later, rows[n].values) == Resolve(e, tables, rows[n].values);
    }
  }

  /** Whatever text matched before still matches the same id; more may match. */
  predicate Extends(tables: Tables, later: Tables) {
    forall key, text :: key in tables && text in tables[key] ==>
      key in later && text in later[key] && later[key][text] == tables[key][text]
  }

  lemma {:induction false} ExtendedResolves(
    e: Entity, refs: seq<Ref>, tables: Tables, later: Tables, values: RowValues)
    requires Extends(tables, later) && ResolveFrom(e, refs, tables, values).Some?
    ensures ResolveFrom(e, refs, later, values) == ResolveFrom(e, refs, tables, values)
  {
    if refs != [] {
      ExtendedResolves(e, refs[..|refs| - 1], tables, later, values);
    }
  }

  /** So it is when the first import added to the very collection its rows refer to. */
  lemma ExtendedTablesResolveAlike(e: Entity, tables: Tables, later: Tables, rows: seq<Row>)
    requires Extends(tables, later) && AllKeyed(e, tables, rows)
    ensures ResolveAlike(e, tables, later, rows)
  {
    forall j | 0 <= j < |rows|
      ensures Resolve(e, later, rows[j].values) == Resolve(e, tables, rows[j].values)
    {
      assert Keyed(e, tables, rows[j].values);
      ExtendedResolves(e, e.refs, tables, later, rows[j].values);
    }
  }

  /**
   Importing the same keyed file a second time, against tables that resolve its rows alike, creates
   nothing and leaves every record as the first import left it, apart from the update stamps.
   */
  lemma ReimportChangesNothing(
    e: Entity, tables: Tables, later: Tables, docs: seq<Doc>, rows: seq<Row>, first: string, second: string, i: nat)
    requires WellFormed(e) && AllKeyed(e, tables, rows) && ResolveAlike(e, tables, later, rows)
    requires i < |UpsertAll(e, tables, docs, rows, first).0|
    ensures var once := UpsertAll(e, tables, docs, rows, first).0;
            var (twice, decisions) := UpsertAll(e, later, once, rows, second);
            && Count(decisions, Created) == 0 && |twice| == |once|
            && twice[i].(updatedBy := None) == once[i].(updatedBy := None)
  {
    SameTablesSameUpserts(e, tables, later, UpsertAll(e, tables, docs, rows, first).0, rows, second);
    RepeatChangesNothing(e, tables, docs, rows, first, second, i);
  }

  lemma RepeatChangesNothing(
    e: Entity, tables: Tables, docs: seq<Doc>, rows: seq<Row>, first: string, second: string, i: nat)
    requires WellFormed(e) && AllKeyed(e, tables, rows)
    requires i < |UpsertAll(e, tables, docs, rows, first).0|
    ensures var once := UpsertAll(e, tables, docs, rows, first).0;
            var (twice, decisions) := UpsertAll(e, tables, once, rows, second);
            && Count(decisions, Created) == 0 && |twice| == |once|
            && twice[i].(updatedBy := None) == once[i].(updatedBy := None)
  {
    var once := UpsertAll(e, tables, docs, rows, first).0;
    var stored := StoredKey(e, once[i]);
    var k := if stored.Some? then stored.value else [];
    PassBuilds(e, tables, docs, rows, first, k);
    forall j | 0 <= j < |rows|
      ensures FindLive(e, once, KeyAt(e, tables, rows[j].values)).Some?
    {
      PassFinds(e, tables, docs, rows, first, KeyAt(e, tables, rows[j].values));
    }
    if FindLive(e, once, k) != Some(i) {
      forall j | 0 <= j < |rows|
        ensures FindLive(e, once, KeyAt(e, tables, rows[j].values)) != Some(i)
      {
        var key := KeyAt(e, tables, rows[j].values);
        assert FindLive(e, once, key) == Some(i) ==> stored == Some(key);
      }
    }
    PassUpdates(e, tables, once, rows, second, k);
    PassOverlays(e, tables, once, rows, second, i, k);
    if FindLive(e, once, k) == Some(i) {
      ChangesKinded(e, tables, rows, k);
      var base :| once[i].fields == OverlaySeq(base, ChangesTo(e, tables, rows, k));
      OverlaySeqTwice(e, base, ChangesTo(e, tables, rows, k));
    }
  }

  // ---- a column left out or left blank changes nothing --------------------------------------------------

  /** The row fills the cell of this reference column. */
  predicate GivesRef(e: Entity, values: RowValues, i: nat)
    requires i < |e.refs|
  {
    && Flat(e.refs[i].key) in values
    && values[Flat(e.refs[i].key)] != Nothing && values[Flat(e.refs[i].key)] != Text("")
  }

  /** The row has a value in this importable column, which stands for no stored id. */
  predicate GivesFlat(e: Entity, values: RowValues, name: string) {
    && Flat(name) in values && values[Flat(name)] != Nothing && Flat(name) in e.columns
    && forall i :: 0 <= i < |e.refs| ==> e.refs[i].key != name
  }

  predicate GivesChild(e: Entity, values: RowValues, parent: string, child: string) {
    Nested(parent, child) in values && values[Nested(parent, child)] != Nothing && Nested(parent, child) in e.columns
  }

  /** The row carries a value for the field itself, through a cell or a reference. */
  predicate NamesWhole(e: Entity, values: RowValues, name: string) {
    GivesFlat(e, values, name) || exists i :: 0 <= i < |e.refs| && e.refs[i].docKey == name && GivesRef(e, values, i)
  }

  /** The row carries a value for the field, through a cell, a reference or a cell nested in it. */
  ghost predicate Names(e: Entity, values: RowValues, name: string) {
    NamesWhole(e, values, name) || exists child :: GivesChild(e, values, name, child)
  }

  lemma {:induction false} RefForIs(refs: seq<Ref>, key: string)
    ensures RefFor(refs, key).None? <==> forall i :: 0 <= i < |refs| ==> refs[i].key != key
    ensures RefFor(refs, key).Some? ==> exists i: nat :: FirstRef(refs, key, i) && RefFor(refs, key) == Some(refs[i])
  {
    if refs != [] {
      RefForIs(refs[1..], key);
      if refs[0].key == key {
        assert FirstRef(refs, key, 0);
      } else if RefFor(refs, key).Some? {
        var i: nat :| FirstRef(refs[1..], key, i) && RefFor(refs[1..], key) == Some(refs[1..][i]);
        assert FirstRef(refs, key, i + 1);
      } else {
        assert forall i :: 1 <= i < |refs| ==> refs[i] == refs[1..][i - 1];
      }
    }
  }

  /** The first reference column of this name. */
  ghost predicate FirstRef(refs: seq<Ref>, key: string, i: nat) {
    i < |refs| && refs[i].key == key && forall j :: 0 <= j < i ==> refs[j].key != key
  }

  lemma SuppliedFlatIs(e: Entity, values: RowValues, name: string)
    ensures Supplied(e, values, Flat(name)) <==> GivesFlat(e, values, name)
  {
    RefForIs(e.refs, name);
  }

  lemma {:induction false} ResolvedNames(e: Entity, refs: seq<Ref>, tables: Tables, values: RowValues)
    requires refs <= e.refs && ResolveFrom(e, refs, tables, values).Some?
    ensures forall name :: name in ResolveFrom(e, refs, tables, values).value <==>
      exists i :: 0 <= i < |refs| && e.refs[i].docKey == name && GivesRef(e, values, i)
  {
    if refs != [] {
      ResolvedNames(e, refs[..|refs| - 1], tables, values);
    }
  }

  lemma FlatPartIs(e: Entity, values: RowValues, name: string)
    ensures name in FlatPart(e, values) <==> GivesFlat(e, values, name)
    ensures name in FlatPart(e, values) ==> FlatPart(e, values)[name] == Scalar(values[Flat(name)])
  {
    SuppliedFlatIs(e, values, name);
  }

  lemma NestedPartIs(e: Entity, values: RowValues, name: string)
    ensures name in NestedPart(e, values) <==> exists child :: GivesChild(e, values, name, child)
    ensures name in NestedPart(e, values) ==>
      && NestedPart(e, values)[name].Sub?
      && forall child :: child in NestedPart(e, values)[name].children <==> GivesChild(e, values, name, child)
    ensures name in NestedPart(e, values) ==>
      forall child :: GivesChild(e, values, name, child) ==>
        NestedPart(e, values)[name].children[child] == values[Nested(name, child)]
  {
    if child :| GivesChild(e, values, name, child) {
      assert Supplied(e, values, Nested(name, child));
    }
    if name in Parents(e, values) {
      var c :| c in values && c.Nested? && Supplied(e, values, c) && c.parent == name;
      assert GivesChild(e, values, name, c.child);
    }
    if name in NestedPart(e, values) {
      forall child
        ensures child in ChildNames(e, values, name) <==> GivesChild(e, values, name, child)
      {
        assert child in ChildNames(e, values, name) <==> Supplied(e, values, Nested(name, child));
      }
    }
  }

  /** A row that resolves writes exactly the fields it names. */
  lemma WritesNamed(e: Entity, tables: Tables, values: RowValues, name: string)
    requires Resolve(e, tables, values).Some?
    ensures name in DocFields(e, values, Resolve(e, tables, values).value, false) <==> Names(e, values, name)
  {
    var resolved := Resolve(e, tables, values).value;
    FieldSource(e, values, resolved, false, name);
    ResolvedNames(e, e.refs, tables, values);
    FlatPartIs(e, values, name);
    NestedPartIs(e, values, name);
    assert name in DocFields(e, values, resolved, false) <==> At(DocFields(e, values, resolved, false), name).Some?;
  }

  /** A step that updates a stored record leaves the field out. */
  predicate Spares(step: Planned, name: string) {
    step.existing.Some? ==> name !in step.fields
  }

  ghost predicate AllSpare(steps: seq<Planned>, name: string) {
    forall k :: 0 <= k < |steps| ==> Spares(steps[k], name)
  }

  ghost predicate NoneNames(e: Entity, rows: seq<Row>, name: string) {
    forall r :: 0 <= r < |rows| ==> !Names(e, rows[r].values, name)
  }

  lemma RowSpares(e: Entity, tables: Tables, index: Index, plan: Plan, row: Row, name: string)
    requires !Names(e, row.values, name) && AllSpare(plan.steps, name)
    ensures AllSpare(PlanRow(e, tables, index, plan, row).steps, name)
  {
    if Resolve(e, tables, row.values).Some? {
      WritesNamed(e, tables, row.values, name);
    }
  }

  lemma {:induction false} PlanSpares(e: Entity, tables: Tables, index: Index, rows: seq<Row>, name: string)
    requires NoneNames(e, rows, name)
    ensures AllSpare(PlanRows(e, tables, index, rows).steps, name)
  {
    if rows != [] {
      var n := |rows| - 1;
      assert forall r :: 0 <= r < n ==> rows[..n][r] == rows[r];
      PlanSpares(e, tables, index, rows[..n], name);
      RowSpares(e, tables, index, PlanRows(e, tables, index, rows[..n]), rows[n], name);
    }
  }

  /** Records placed by the import come after those it found, which stay the records they were. */
  ghost predicate KeepsOld(docs: seq<Doc>, s: Applied) {
    && |docs| <= |s.docs| && (forall key :: key in s.placed ==> s.placed[key] >= |docs|)
    && forall i :: 0 <= i < |docs| ==> s.docs[i].deleted == docs[i].deleted && s.docs[i].createdBy == docs[i].createdBy
  }

  lemma {:induction false} ApplyKeepsOld(
    e: Entity, docs: seq<Doc>, steps: seq<Planned>, actor: string, refused: nat -> bool)
    ensures KeepsOld(docs, ApplySteps(e, docs, steps, actor, refused))
  {
    if steps != [] {
      ApplyKeepsOld(e, docs, steps[..|steps| - 1], actor, refused);
    }
  }

  /** Only a step that found the record touches it. */
  lemma StepOnOld(e: Entity, docs: seq<Doc>, s: Applied, step: Planned, actor: string, refused: bool, i: nat)
    requires KeepsOld(docs, s) && i < |docs|
    ensures var t := ApplyStep(e, s, step, actor, refused);
            && |t.docs| >= |docs|
            && t.docs[i].fields == (if !refused && step.existing == Some(i) then Overlay(s.docs[i].fields, step.fields)
                                    else s.docs[i].fields)
  {
  }

  lemma {:induction false} ApplySpares(
    e: Entity, docs: seq<Doc>, steps: seq<Planned>, actor: string, refused: nat -> bool, name: string, i: nat)
    requires i < |docs| && AllSpare(steps, name)
    ensures var s := ApplySteps(e, docs, steps, actor, refused);
            && i < |s.docs| && At(s.docs[i].fields, name) == At(docs[i].fields, name)
            && s.docs[i].deleted == docs[i].deleted && s.docs[i].createdBy == docs[i].createdBy
  {
    ApplyKeepsOld(e, docs, steps, actor, refused);
    if steps != [] {
      var n := |steps| - 1;
      var s := ApplySteps(e, docs, steps[..n], actor, refused);
      assert forall k :: 0 <= k < n ==> steps[..n][k] == steps[k];
      ApplySpares(e, docs, steps[..n], actor, refused, name, i);
      ApplyKeepsOld(e, docs, steps[..n], actor, refused);
      StepOnOld(e, docs, s, steps[n], actor, refused(n), i);
      OverlayIsPointwise(s.docs[i].fields, steps[n].fields, name);
    }
  }

  /**
   A field that no row of the file carries a value for is, after the whole import, what it was in every
   record that existed before, whichever writes the database refused.
   */
  lemma UnnamedFieldKept(
    e: Entity, tables: Tables, docs: seq<Doc>, rows: seq<Row>, actor: string, refused: nat -> bool,
    name: string, i: nat)
    requires i < |docs| && NoneNames(e, rows, name)
    ensures var s := ApplySteps(e, docs, PlanRows(e, tables, IndexOf(e, docs), rows).steps, actor, refused);
            && i < |s.docs| && At(s.docs[i].fields, name) == At(docs[i].fields, name)
            && s.docs[i].deleted == docs[i].deleted && s.docs[i].createdBy == docs[i].createdBy
  {
    PlanSpares(e, tables, IndexOf(e, docs), rows, name);
    ApplySpares(e, docs, PlanRows(e, tables, IndexOf(e, docs), rows).steps, actor, refused, name, i);
  }

  function ChildAt(fields: Fields, parent: string, child: string): Option<Value> {
    if parent in fields && fields[parent].Sub? && child in fields[parent].children
    then Some(fields[parent].children[child]) else None
  }

  /** The row carries a value for the child, or for all of the sub-document at once. */
  predicate NamesChild(e: Entity, values: RowValues, parent: string, child: string) {
    GivesChild(e, values, parent, child) || NamesWhole(e, values, parent)
  }

  predicate SparesChild(step: Planned, parent: string, child: string) {
    step.existing.Some? && parent in step.fields ==>
      step.fields[parent].Sub? && child !in step.fields[parent].children
  }

  ghost predicate AllSpareChild(steps: seq<Planned>, parent: string, child: string) {
    forall k :: 0 <= k < |steps| ==> SparesChild(steps[k], parent, child)
  }

  ghost predicate NoneNamesChild(e: Entity, rows: seq<Row>, parent: string, child: string) {
    forall r :: 0 <= r < |rows| ==> !NamesChild(e, rows[r].values, parent, child)
  }

  lemma RowSparesChild(
    e: Entity, tables: Tables, index: Index, plan: Plan, row: Row, parent: string, child: string)
    requires !NamesChild(e, row.values, parent, child) && AllSpareChild(plan.steps, parent, child)
    ensures AllSpareChild(PlanRow(e, tables, index, plan, row).steps, parent, child)
  {
    if Resolve(e, tables, row.values).Some? {
      FieldSource(e, row.values, Resolve(e, tables, row.values).value, false, parent);
      ResolvedNames(e, e.refs, tables, row.values);
      SuppliedFlatIs(e, row.values, parent);
    }
  }

  lemma {:induction false} PlanSparesChild(
    e: Entity, tables: Tables, index: Index, rows: seq<Row>, parent: string, child: string)
    requires NoneNamesChild(e, rows, parent, child)
    ensures AllSpareChild(PlanRows(e, tables, index, rows).steps, parent, child)
  {
    if rows != [] {
      var n := |rows| - 1;
      assert forall r :: 0 <= r < n ==> rows[..n][r] == rows[r];
      PlanSparesChild(e, tables, index, rows[..n], parent, child);
      RowSparesChild(e, tables, index, PlanRows(e, tables, index, rows[..n]), rows[n], parent, child);
    }
  }

  lemma OverlayChild(stored: Fields, change: Fields, parent: string, child: string)
    requires parent in change ==> change[parent].Sub? && child !in change[parent].children
    ensures ChildAt(Overlay(stored, change), parent, child) == ChildAt(stored, parent, child)
  {
    OverlayAt(stored, change, parent);
  }

  lemma {:induction false} ApplySparesChild(
    e: Entity, docs: seq<Doc>, steps: seq<Planned>, actor: string, refused: nat -> bool,
    parent: string, child: string, i: nat)
    requires i < |docs| && AllSpareChild(steps, parent, child)
    ensures var s := ApplySteps(e, docs, steps, actor, refused);
            i < |s.docs| && ChildAt(s.docs[i].fields, parent, child) == ChildAt(docs[i].fields, parent, child)
  {
    if steps != [] {
      var n := |steps| - 1;
      var s := ApplySteps(e, docs, steps[..n], actor, refused);
      assert forall k :: 0 <= k < n ==> steps[..n][k] == steps[k];
      ApplySparesChild(e, docs, steps[..n], actor, refused, parent, child, i);
      ApplyKeepsOld(e, docs, steps[..n], actor, refused);
      StepOnOld(e, docs, s, steps[n], actor, refused(n), i);
      if steps[n].existing == Some(i) {
        OverlayChild(s.docs[i].fields, steps[n].fields, parent, child);
      }
    }
  }

  /** Inside a sub-document too: over a whole import, a child no row supplies is what it was in every old record. */
  lemma UnnamedChildKept(
    e: Entity, tables: Tables, docs: seq<Doc>, rows: seq<Row>, actor: string, refused: nat -> bool,
    parent: string, child: string, i: nat)
    requires i < |docs| && NoneNamesChild(e, rows, parent, child)
    ensures var s := ApplySteps(e, docs, PlanRows(e, tables, IndexOf(e, docs), rows).steps, actor, refused);
            i < |s.docs| && ChildAt(s.docs[i].fields, parent, child) == ChildAt(docs[i].fields, parent, child)
  {
    PlanSparesChild(e, tables, IndexOf(e, docs), rows, parent, child);
    ApplySparesChild(
      e, docs, PlanRows(e, tables, IndexOf(e, docs), rows).steps, actor, refused, parent, child, i);
  }

  // ---- a creating write that is refused ---------------------------------------------------------------------

  lemma RepeatedKeyPlan(e: Entity, tables: Tables, index: Index, a: Row, b: Row)
    requires Keyed(e, tables, a.values) && Keyed(e, tables, b.values)
    requires KeyOf(e, tables, a.values) == KeyOf(e, tables, b.values) && KeyOf(e, tables, b.values) !in index
    ensures var steps := PlanRows(e, tables, index, [a, b]).steps;
            && |steps| == 2 && steps[0].row == a.number
            && steps[1] == Planned(b.number, Some(KeyOf(e, tables, b.values)), None,
                                   DocFields(e, b.values, Resolve(e, tables, b.values).value, false))
  {
    var first := PlanRow(e, tables, index, Plan([], {}, 0, 0, []), a);
    PlanOfTwo(e, tables, index, a, b);
    CreatorPlanned(e, tables, index, a);
    RepeatPlanned(e, tables, index, first, b);
  }

  lemma PlanOfTwo(e: Entity, tables: Tables, index: Index, a: Row, b: Row)
    ensures PlanRows(e, tables, index, [a, b])
         == PlanRow(e, tables, index, PlanRow(e, tables, index, Plan([], {}, 0, 0, []), a), b)
  {
    assert [a][..0] == [] && [a, b][..1] == [a];
    assert PlanRows(e, tables, index, [a]) == PlanRow(e, tables, index, PlanRows(e, tables, index, []), a);
  }

  lemma CreatorPlanned(e: Entity, tables: Tables, index: Index, a: Row)
    requires Keyed(e, tables, a.values) && KeyOf(e, tables, a.values) !in index
    ensures var plan := PlanRow(e, tables, index, Plan([], {}, 0, 0, []), a);
            |plan.steps| == 1 && plan.steps[0].row == a.number && plan.keys == {KeyOf(e, tables, a.values)}
  {
  }

  lemma RepeatPlanned(e: Entity, tables: Tables, index: Index, plan: Plan, b: Row)
    requires Keyed(e, tables, b.values) && KeyOf(e, tables, b.values) !in index
    requires KeyOf(e, tables, b.values) in plan.keys
    ensures PlanRow(e, tables, index, plan, b).steps
         == plan.steps + [Planned(b.number, Some(KeyOf(e, tables, b.values)), None,
                                  DocFields(e, b.values, Resolve(e, tables, b.values).value, false))]
  {
  }

  lemma RefusedThenInserted(e: Entity, docs: seq<Doc>, steps: seq<Planned>, actor: string, refused: nat -> bool)
    requires |steps| == 2 && steps[1].existing.None? && refused(0) && !refused(1)
    ensures var s := ApplySteps(e, docs, steps, actor, refused);
            s.docs == docs + [NewDoc(e, steps[1].fields, actor)] && s.created == 1 && s.failed == [steps[0].row]
  {
    assert steps[..2] == steps && steps[..1][..0] == [];
    assert ApplySteps(e, docs, steps[..1], actor, refused) == Applied(docs, map[], 0, 0, [steps[0].row]);
  }

  /**
   When the database refuses the row that would create a record, a later row of the same key creates it
   with the fields of an update, without the defaults it has when it is imported by itself.
   */
  lemma RefusedCreatorLosesDefaults(
    e: Entity, tables: Tables, docs: seq<Doc>, a: Row, b: Row, actor: string, refused: nat -> bool)
    requires Keyed(e, tables, a.values) && Keyed(e, tables, b.values)
    requires KeyOf(e, tables, a.values) == KeyOf(e, tables, b.values)
    requires KeyOf(e, tables, b.values) !in IndexOf(e, docs) && refused(0) && !refused(1)
    ensures var s := ApplySteps(e, docs, PlanRows(e, tables, IndexOf(e, docs), [a, b]).steps, actor, refused);
            var resolved := Resolve(e, tables, b.values).value;
            && s.docs == docs + [NewDoc(e, DocFields(e, b.values, resolved, false), actor)] && s.failed == [a.number]
            && Upsert(e, tables, docs, b.values, actor).0
               == docs + [NewDoc(e, DocFields(e, b.values, resolved, true), actor)]
  {
    RepeatedKeyPlan(e, tables, IndexOf(e, docs), a, b);
    RefusedThenInserted(e, docs, PlanRows(e, tables, IndexOf(e, docs), [a, b]).steps, actor, refused);
    IndexIsLookup(e, docs, KeyOf(e, tables, b.values));
  }

  // ---- every row is counted once ---------------------------------------------------------------------------

  function StepRows(steps: seq<Planned>): seq<nat> {
    seq(|steps|, i requires 0 <= i < |steps| => steps[i].row)
  }

  function RowNumbers(rows: seq<Row>): seq<nat> {
    seq(|rows|, i requires 0 <= i < |rows| => rows[i].number)
  }

  lemma {:induction false} DistinctCount(numbers: seq<nat>)
    requires CsvFile.Increasing(numbers)
    ensures |CsvFile.Members(numbers)| == |numbers|
  {
    if numbers != [] {
      DistinctCount(numbers[..|numbers| - 1]);
      CsvFile.IncreasingTail(numbers);
    }
  }

  ghost predicate Splits(steps: seq<nat>, rejected: seq<nat>, rows: seq<nat>) {
    && CsvFile.Increasing(steps) && CsvFile.Increasing(rejected)
    && CsvFile.Members(steps) !! CsvFile.Members(rejected)
    && CsvFile.Members(steps) + CsvFile.Members(rejected) == CsvFile.Members(rows)
  }

  lemma SplitsSnoc(steps: seq<nat>, rejected: seq<nat>, rows: seq<nat>)
    requires rows != [] && CsvFile.Increasing(rows) && Splits(steps, rejected, rows[..|rows| - 1])
    ensures Splits(steps + [rows[|rows| - 1]], rejected, rows)
    ensures Splits(steps, rejected + [rows[|rows| - 1]], rows)
  {
    var n := |rows| - 1;
    CsvFile.IncreasingTail(rows);
    forall m | m in steps || m in rejected
      ensures m < rows[n]
    {
      assert m in CsvFile.Members(steps) + CsvFile.Members(rejected);
      assert m in CsvFile.Members(rows[..n]);
    }
    CsvFile.IncreasingSnoc(steps, rows[n]);
    CsvFile.IncreasingSnoc(rejected, rows[n]);
  }

  /** The plan and its rejections split the rows between them. */
  lemma {:induction false} PlanSplitsRows(e: Entity, tables: Tables, index: Index, rows: seq<Row>)
    requires CsvFile.Increasing(RowNumbers(rows))
    ensures var plan := PlanRows(e, tables, index, rows);
            Splits(StepRows(plan.steps), plan.rejected, RowNumbers(rows)) &&
            |plan.steps| == plan.created + plan.updated
  {
    if rows != [] {
      var n := |rows| - 1;
      var before := PlanRows(e, tables, index, rows[..n]);
      var plan := PlanRow(e, tables, index, before, rows[n]);
      assert RowNumbers(rows)[..n] == RowNumbers(rows[..n]);
      PlanSplitsRows(e, tables, index, rows[..n]);
      SplitsSnoc(StepRows(before.steps), before.rejected, RowNumbers(rows));
      if Resolve(e, tables, rows[n].values).Some? {
        assert StepRows(plan.steps) == StepRows(before.steps) + [rows[n].number];
      }
    }
  }

  lemma ApplyCountsStep(e: Entity, s: Applied, step: Planned, actor: string, refused: bool)
    ensures var t := ApplyStep(e, s, step, actor, refused);
            && t.created + t.updated + |t.failed| == s.created + s.updated + |s.failed| + 1
            && (t.failed == s.failed || t.failed == s.failed + [step.row])
  {
  }

  lemma {:induction false} AppliedCounts(
    e: Entity, docs: seq<Doc>, steps: seq<Planned>, actor: string, refused: nat -> bool)
    requires CsvFile.Increasing(StepRows(steps))
    ensures var s := ApplySteps(e, docs, steps, actor, refused);
            && s.created + s.updated + |s.failed| == |steps|
            && CsvFile.Increasing(s.failed) && CsvFile.Members(s.failed) <= CsvFile.Members(StepRows(steps))
  {
    if steps != [] {
      var n := |steps| - 1;
      var s := ApplySteps(e, docs, steps[..n], actor, refused);
      assert StepRows(steps)[..n] == StepRows(steps[..n]);
      CsvFile.IncreasingTail(StepRows(steps));
      AppliedCounts(e, docs, steps[..n], actor, refused);
      ApplyCountsStep(e, s, steps[n], actor, refused(n));
      forall m | m in s.failed
        ensures m < steps[n].row
      {
        assert m in CsvFile.Members(s.failed);
      }
      CsvFile.IncreasingSnoc(s.failed, steps[n].row);
    }
  }

  /** Rows reported, in either mode: unreadable, unresolved, or refused by the database. */
  function FailedRows(bad: set<nat>, plan: Plan, failed: seq<nat>): set<nat> {
    bad + CsvFile.Members(plan.rejected) + CsvFile.Members(failed)
  }

  /** Created, updated and failed together make up the file, when dry-run and when committed. */
  lemma EveryRowCounted(e: Entity, tables: Tables, docs: seq<Doc>, rows: seq<Row>, bad: set<nat>,
                        actor: string, refused: nat -> bool)
    requires CsvFile.Increasing(RowNumbers(rows)) && CsvFile.Members(RowNumbers(rows)) !! bad
    ensures var plan := PlanRows(e, tables, IndexOf(e, docs), rows);
            var s := ApplySteps(e, docs, plan.steps, actor, refused);
            && plan.created + plan.updated + |FailedRows(bad, plan, [])| == |rows| + |bad|
            && s.created + s.updated + |FailedRows(bad, plan, s.failed)| == |rows| + |bad|
  {
    var plan := PlanRows(e, tables, IndexOf(e, docs), rows);
    var s := ApplySteps(e, docs, plan.steps, actor, refused);
    PlanSplitsRows(e, tables, IndexOf(e, docs), rows);
    AppliedCounts(e, docs, plan.steps, actor, refused);
    DistinctCount(RowNumbers(rows));
    DistinctCount(StepRows(plan.steps));
    DistinctCount(plan.rejected);
    DistinctCount(s.failed);
    assert FailedRows(bad, plan, []) == bad + CsvFile.Members(plan.rejected);
    assert bad !! CsvFile.Members(plan.rejected) && (bad + CsvFile.Members(plan.rejected)) !! CsvFile.Members(s.failed);
  }

  // ---- the service -------------------------------------------------------------------------------------------

  /** A dotted column key names a child of a sub-document. */
  function ColumnOf(key: string): Column {
    if key == "" then Flat("")
    else if key[0] == '.' then Nested("", key[1..])
    else match ColumnOf(key[1..])
         case Flat(name) => Flat([key[0]] + name)
         case Nested(parent, child) => Nested([key[0]] + parent, child)
  }

  function KeyText(column: Column): string {
    match column
    case Flat(name) => name
    case Nested(parent, child) => parent + "." + child
  }

  lemma {:induction false} ColumnKeepsKey(key: string)
    ensures KeyText(ColumnOf(key)) == key
  {
    if key != "" && key[0] != '.' {
      ColumnKeepsKey(key[1..]);
    }
  }

  /** A parsed row as the planner sees it: the same cells under their columns. */
  function FromParsed(parsed: CsvFile.ParsedRow): (row: Row)
    ensures row.number == parsed.row
  {
    Row(parsed.row,
        map c | c in (set key | key in parsed.values :: ColumnOf(key)) && KeyText(c) in parsed.values
          :: parsed.values[KeyText(c)])
  }

  function RowsOf(parsed: seq<CsvFile.ParsedRow>): seq<Row> {
    seq(|parsed|, i requires 0 <= i < |parsed| => FromParsed(parsed[i]))
  }

  lemma ParsedCellsKept(parsed: CsvFile.ParsedRow, key: string)
    requires key in parsed.values
    ensures ColumnOf(key) in FromParsed(parsed).values
    ensures FromParsed(parsed).values[ColumnOf(key)] == parsed.values[key]
  {
    ColumnKeepsKey(key);
  }
}
