/**
 What an import leaves in the collection, stated over the cells of the file, the lookup tables and the
 stored fields alone: every row that resolves lands in the first live record with its natural key, or in
 a new one, and what it gives stays there until a later row of the file gives the same field.
 */
module Imported {
  import opened CsvCells
  import CsvFile
  import opened CsvImport
  import opened Options

  // ---- what a row gives -----------------------------------------------------------------------------------

  /** The text a reference cell is looked up by. */
  function Typed(e: Entity, ref: Ref, v: Value): string {
    if ref.foldCase then e.fold(e.textOf(Scalar(v))) else e.textOf(Scalar(v))
  }

  predicate Known(e: Entity, tables: Tables, values: RowValues, i: nat)
    requires i < |e.refs| && GivesRef(e, values, i)
  {
    e.refs[i].key in tables && Typed(e, e.refs[i], values[Flat(e.refs[i].key)]) in tables[e.refs[i].key]
  }

  /** Every reference the row fills in matches something. */
  ghost predicate AllKnown(e: Entity, tables: Tables, values: RowValues) {
    forall i :: 0 <= i < |e.refs| && GivesRef(e, values, i) ==> Known(e, tables, values, i)
  }

  /** The stored id of the reference, unless another reference column writes the same field after it. */
  ghost predicate RefHeld(e: Entity, tables: Tables, values: RowValues, fields: Fields, i: nat)
    requires i < |e.refs|
  {
    GivesRef(e, values, i) && LastFor(e, values, i) ==>
      && Known(e, tables, values, i) && e.refs[i].docKey in fields
      && fields[e.refs[i].docKey]
         == Scalar(Text(tables[e.refs[i].key][Typed(e, e.refs[i], values[Flat(e.refs[i].key)])]))
  }

  ghost predicate LastFor(e: Entity, values: RowValues, i: nat)
    requires i < |e.refs|
  {
    forall j :: i < j < |e.refs| && GivesRef(e, values, j) ==> e.refs[j].docKey != e.refs[i].docKey
  }

  /** A cell of its own stands as it is, unless a reference writes the same field. */
  ghost predicate FlatHeld(e: Entity, values: RowValues, fields: Fields, name: string) {
    GivesFlat(e, values, name)
    && (forall i :: 0 <= i < |e.refs| && GivesRef(e, values, i) ==> e.refs[i].docKey != name) ==>
      name in fields && fields[name] == Scalar(values[Flat(name)])
  }

  ghost predicate ChildHeld(e: Entity, values: RowValues, fields: Fields, parent: string, child: string) {
    GivesChild(e, values, parent, child) ==>
      && parent in fields && fields[parent].Sub? && child in fields[parent].children
      && fields[parent].children[child] == values[Nested(parent, child)]
  }

  ghost predicate Holds(e: Entity, tables: Tables, values: RowValues, fields: Fields) {
    && (forall i :: 0 <= i < |e.refs| ==> RefHeld(e, tables, values, fields, i))
    && (forall name :: FlatHeld(e, values, fields, name))
    && (forall parent, child :: ChildHeld(e, values, fields, parent, child))
  }

  lemma GivenCell(e: Entity, tables: Tables, values: RowValues, i: nat)
    requires i < |e.refs|
    ensures var ref, cell := e.refs[i], Scalar(CellAt(values, Flat(e.refs[i].key)));
            && (GivesRef(e, values, i) <==> !Blank(cell))
            && (GivesRef(e, values, i) ==>
                  && cell == Scalar(values[Flat(ref.key)])
                  && (Known(e, tables, values, i)
                      <==> ref.key in tables && Typed(e, ref, values[Flat(ref.key)]) in tables[ref.key]))
  {
  }

  lemma {:induction false} ResolvesFromIff(e: Entity, n: nat, tables: Tables, values: RowValues)
    requires n <= |e.refs|
    ensures ResolveFrom(e, e.refs[..n], tables, values).Some? <==>
      forall i :: 0 <= i < n && GivesRef(e, values, i) ==> Known(e, tables, values, i)
  {
    if n > 0 {
      assert e.refs[..n][..n - 1] == e.refs[..n - 1];
      ResolvesFromIff(e, n - 1, tables, values);
      GivenCell(e, tables, values, n - 1);
    }
  }

  lemma {:induction false} ResolvedIs(e: Entity, n: nat, tables: Tables, values: RowValues)
    requires n <= |e.refs| && ResolveFrom(e, e.refs[..n], tables, values).Some?
    ensures forall i ::
      0 <= i < n && GivesRef(e, values, i)
      && (forall j :: i < j < n && GivesRef(e, values, j) ==> e.refs[j].docKey != e.refs[i].docKey) ==>
        var resolved := ResolveFrom(e, e.refs[..n], tables, values).value;
        && Known(e, tables, values, i) && e.refs[i].docKey in resolved
        && resolved[e.refs[i].docKey]
           == Scalar(Text(tables[e.refs[i].key][Typed(e, e.refs[i], values[Flat(e.refs[i].key)])]))
  {
    ResolvesFromIff(e, n, tables, values);
    if n > 0 {
      assert e.refs[..n][..n - 1] == e.refs[..n - 1];
      ResolvedIs(e, n - 1, tables, values);
      GivenCell(e, tables, values, n - 1);
    }
  }

  /** A row is rejected exactly when a reference it fills in matches nothing. */
  lemma ResolvesIff(e: Entity, tables: Tables, values: RowValues)
    ensures Resolve(e, tables, values).Some? <==> AllKnown(e, tables, values)
  {
    assert e.refs[..|e.refs|] == e.refs;
    ResolvesFromIff(e, |e.refs|, tables, values);
  }

  lemma ChangeHoldsRef(e: Entity, tables: Tables, values: RowValues, creating: bool, i: nat)
    requires WellFormed(e) && Resolve(e, tables, values).Some? && i < |e.refs|
    ensures RefHeld(e, tables, values, DocFields(e, values, Resolve(e, tables, values).value, creating), i)
  {
    if GivesRef(e, values, i) && LastFor(e, values, i) {
      assert e.refs[..|e.refs|] == e.refs;
      ResolvesIff(e, tables, values);
      ResolvedIs(e, |e.refs|, tables, values);
      FieldSource(e, values, Resolve(e, tables, values).value, creating, e.refs[i].docKey);
      NestedPartIs(e, values, e.refs[i].docKey);
    }
  }

  lemma ChangeHoldsCell(e: Entity, tables: Tables, values: RowValues, creating: bool, name: string)
    requires WellFormed(e) && Resolve(e, tables, values).Some?
    ensures FlatHeld(e, values, DocFields(e, values, Resolve(e, tables, values).value, creating), name)
    ensures forall child ::
      ChildHeld(e, values, DocFields(e, values, Resolve(e, tables, values).value, creating), name, child)
  {
    FieldSource(e, values, Resolve(e, tables, values).value, creating, name);
    ResolvedNames(e, e.refs, tables, values);
    FlatPartIs(e, values, name);
    NestedPartIs(e, values, name);
  }

  lemma ChangeHolds(e: Entity, tables: Tables, values: RowValues, creating: bool)
    requires WellFormed(e) && Resolve(e, tables, values).Some?
    ensures Holds(e, tables, values, DocFields(e, values, Resolve(e, tables, values).value, creating))
  {
    var change := DocFields(e, values, Resolve(e, tables, values).value, creating);
    forall i: nat | i < |e.refs|
      ensures RefHeld(e, tables, values, change, i)
    {
      ChangeHoldsRef(e, tables, values, creating, i);
    }
    forall name
      ensures FlatHeld(e, values, change, name)
    {
      ChangeHoldsCell(e, tables, values, creating, name);
    }
    forall parent, child
      ensures ChildHeld(e, values, change, parent, child)
    {
      ChangeHoldsCell(e, tables, values, creating, parent);
    }
  }

  /** Fields that carry a change: its scalars as they are, its sub-documents merged in. */
  ghost predicate Carries(fields: Fields, change: Fields) {
    forall name :: name in change ==> name in fields && CarriesOne(fields[name], change[name])
  }

  ghost predicate CarriesOne(stored: Stored, given: Stored) {
    && (given.Scalar? ==> stored == given)
    && (given.Sub? ==> stored.Sub? && forall child :: child in given.children ==>
          child in stored.children && stored.children[child] == given.children[child])
  }

  lemma CarriedHolds(e: Entity, tables: Tables, values: RowValues, change: Fields, fields: Fields)
    requires Holds(e, tables, values, change) && Carries(fields, change)
    ensures Holds(e, tables, values, fields)
  {
    forall i: nat | i < |e.refs|
      ensures RefHeld(e, tables, values, fields, i)
    {
      assert RefHeld(e, tables, values, change, i);
    }
    forall name
      ensures FlatHeld(e, values, fields, name)
    {
      assert FlatHeld(e, values, change, name);
    }
    forall parent, child
      ensures ChildHeld(e, values, fields, parent, child)
    {
      assert ChildHeld(e, values, change, parent, child);
    }
  }

  lemma NewCarries(e: Entity, fields: Fields, actor: string)
    ensures Carries(NewDoc(e, fields, actor).fields, fields)
  {
  }

  lemma OverlayCarries(stored: Fields, change: Fields)
    ensures Carries(Overlay(stored, change), change)
  {
    forall name | name in change
      ensures name in Overlay(stored, change) && CarriesOne(Overlay(stored, change)[name], change[name])
    {
      OverlayAt(stored, change, name);
    }
  }

  // ---- the record a row creates or updates ----------------------------------------------------------------

  /** The record is updated: what the row gives is there, everything else is as it was. */
  ghost predicate Updates(e: Entity, tables: Tables, values: RowValues, actor: string, was: Doc, now: Doc) {
    && now.deleted == was.deleted && now.createdBy == was.createdBy && now.updatedBy == Some(actor)
    && Holds(e, tables, values, now.fields)
    && (forall name :: !Names(e, values, name) ==> Same(now.fields, was.fields, name))
    && (forall parent, child :: !NamesChild(e, values, parent, child) ==> SameChild(now.fields, was.fields, parent, child))
  }

  predicate Same(now: Fields, was: Fields, name: string) {
    (name in now <==> name in was) && (name in was ==> now[name] == was[name])
  }

  predicate HasChild(fields: Fields, parent: string, child: string) {
    parent in fields && fields[parent].Sub? && child in fields[parent].children
  }

  predicate SameChild(now: Fields, was: Fields, parent: string, child: string) {
    && (HasChild(now, parent, child) <==> HasChild(was, parent, child))
    && (HasChild(was, parent, child) ==> now[parent].children[child] == was[parent].children[child])
  }

  /** The record is new: what the row gives, the defaults if it is to have them, and an owner where it needs one. */
  ghost predicate Creates(e: Entity, tables: Tables, values: RowValues, actor: string, withDefaults: bool, now: Doc) {
    && !now.deleted && now.createdBy == actor && now.updatedBy == None
    && Holds(e, tables, values, now.fields)
    && (forall name :: !Names(e, values, name) ==> Unnamed(e, actor, withDefaults, now.fields, name))
    && (forall parent, child :: HasChild(now.fields, parent, child) && !NamesWhole(e, values, parent) ==>
          GivesChild(e, values, parent, child) || !Names(e, values, parent))
  }

  predicate Unnamed(e: Entity, actor: string, withDefaults: bool, fields: Fields, name: string) {
    if withDefaults && name in e.defaults then name in fields && fields[name] == e.defaults[name]
    else if e.owned && name == "owner_id" then name in fields && fields[name] == Scalar(Text(actor))
    else name !in fields
  }

  lemma UpdateUpdates(e: Entity, tables: Tables, values: RowValues, actor: string, was: Doc)
    requires WellFormed(e) && Resolve(e, tables, values).Some?
    ensures Updates(e, tables, values, actor, was,
                    UpdatedDoc(was, DocFields(e, values, Resolve(e, tables, values).value, false), actor))
  {
    var change := DocFields(e, values, Resolve(e, tables, values).value, false);
    var now := Overlay(was.fields, change);
    ChangeHolds(e, tables, values, false);
    OverlayCarries(was.fields, change);
    CarriedHolds(e, tables, values, change, now);
    forall name | !Names(e, values, name)
      ensures Same(now, was.fields, name)
    {
      WritesNamed(e, tables, values, name);
      OverlayAt(was.fields, change, name);
    }
    forall parent, child | !NamesChild(e, values, parent, child)
      ensures SameChild(now, was.fields, parent, child)
    {
      UnnamedChildSame(e, tables, values, was.fields, parent, child);
    }
  }

  lemma UnnamedChildSame(e: Entity, tables: Tables, values: RowValues, was: Fields, parent: string, child: string)
    requires WellFormed(e) && Resolve(e, tables, values).Some? && !NamesChild(e, values, parent, child)
    ensures SameChild(Overlay(was, DocFields(e, values, Resolve(e, tables, values).value, false)), was, parent, child)
  {
    var change := DocFields(e, values, Resolve(e, tables, values).value, false);
    FieldSource(e, values, Resolve(e, tables, values).value, false, parent);
    ResolvedNames(e, e.refs, tables, values);
    FlatPartIs(e, values, parent);
    NestedPartIs(e, values, parent);
    assert parent in change ==> At(change, parent) == Some(change[parent]);
    assert parent in change ==> change[parent].Sub? && child !in change[parent].children;
    OverlayAt(was, change, parent);
  }

  lemma NewCreates(e: Entity, tables: Tables, values: RowValues, actor: string, creating: bool)
    requires WellFormed(e) && Resolve(e, tables, values).Some?
    ensures Creates(e, tables, values, actor, creating,
                    NewDoc(e, DocFields(e, values, Resolve(e, tables, values).value, creating), actor))
  {
    var fields := DocFields(e, values, Resolve(e, tables, values).value, creating);
    var now := NewDoc(e, fields, actor).fields;
    ChangeHolds(e, tables, values, creating);
    NewCarries(e, fields, actor);
    CarriedHolds(e, tables, values, fields, now);
    forall name | !Names(e, values, name)
      ensures Unnamed(e, actor, creating, now, name)
    {
      NewUnnamed(e, tables, values, actor, creating, name);
    }
    forall parent, child | HasChild(now, parent, child) && !NamesWhole(e, values, parent) && Names(e, values, parent)
      ensures GivesChild(e, values, parent, child)
    {
      NewChildGiven(e, tables, values, actor, creating, parent, child);
    }
  }

  lemma NewUnnamed(e: Entity, tables: Tables, values: RowValues, actor: string, creating: bool, name: string)
    requires Resolve(e, tables, values).Some? && !Names(e, values, name)
    ensures Unnamed(e, actor, creating,
                    NewDoc(e, DocFields(e, values, Resolve(e, tables, values).value, creating), actor).fields, name)
  {
    var fields := DocFields(e, values, Resolve(e, tables, values).value, creating);
    FieldSource(e, values, Resolve(e, tables, values).value, creating, name);
    FieldSource(e, values, Resolve(e, tables, values).value, false, name);
    WritesNamed(e, tables, values, name);
    assert At(fields, name) == if creating then At(e.defaults, name) else None;
  }

  lemma NewChildGiven(e: Entity, tables: Tables, values: RowValues, actor: string, creating: bool,
                      parent: string, child: string)
    requires Resolve(e, tables, values).Some? && Names(e, values, parent) && !NamesWhole(e, values, parent)
    requires var doc := NewDoc(e, DocFields(e, values, Resolve(e, tables, values).value, creating), actor);
             HasChild(doc.fields, parent, child)
    ensures GivesChild(e, values, parent, child)
  {
    var fields := DocFields(e, values, Resolve(e, tables, values).value, creating);
    FieldSource(e, values, Resolve(e, tables, values).value, creating, parent);
    NestedPartIs(e, values, parent);
    assert At(fields, parent) == Some(NestedPart(e, values)[parent]);
  }

  // ---- which record a row lands in ------------------------------------------------------------------------

  /** No two reference columns write the same field, or have the same name. */
  ghost predicate Apart(refs: seq<Ref>) {
    forall i, j :: 0 <= i < j < |refs| ==> refs[i].key != refs[j].key && refs[i].docKey != refs[j].docKey
  }

  /** So it is wherever rows are matched to records. */
  ghost predicate RefsApart(e: Entity) {
    e.appendOnly || e.naturalKey == [] || Apart(e.refs)
  }

  predicate Empty(fields: Fields, name: string) {
    name !in fields || fields[name] == Scalar(Nothing) || fields[name] == Scalar(Text(""))
  }

  /** The row's reference has this id. */
  predicate GivesId(e: Entity, tables: Tables, values: RowValues, i: nat, id: string)
    requires i < |e.refs|
  {
    && GivesRef(e, values, i) && Known(e, tables, values, i) && id != ""
    && id == tables[e.refs[i].key][Typed(e, e.refs[i], values[Flat(e.refs[i].key)])]
  }

  /** A stored reference and the row's: the same id, or none on either side. */
  ghost predicate SameRef(e: Entity, tables: Tables, values: RowValues, fields: Fields, i: nat)
    requires i < |e.refs|
  {
    var docKey := e.refs[i].docKey;
    && ((exists id :: GivesId(e, tables, values, i, id)) <==> !Empty(fields, docKey))
    && (forall id :: GivesId(e, tables, values, i, id) && !Empty(fields, docKey) ==>
          e.textOf(fields[docKey]) == e.textOf(Scalar(Text(id))))
  }

  /** A stored field and the row's cell read alike. */
  predicate SameText(e: Entity, values: RowValues, fields: Fields, key: string) {
    && !Empty(fields, key) && HasCell(values, key)
    && (e.keyFold ==> e.fold(e.textOf(fields[key])) == e.fold(e.textOf(Scalar(values[Flat(key)]))))
    && (!e.keyFold ==> e.textOf(fields[key]) == e.textOf(Scalar(values[Flat(key)])))
  }

  predicate HasCell(values: RowValues, key: string) {
    Flat(key) in values && values[Flat(key)] != Nothing && values[Flat(key)] != Text("")
  }

  predicate IsRef(e: Entity, key: string) {
    exists i :: 0 <= i < |e.refs| && e.refs[i].key == key
  }

  ghost predicate SamePart(e: Entity, tables: Tables, values: RowValues, fields: Fields, key: string) {
    && (forall i :: 0 <= i < |e.refs| && e.refs[i].key == key ==> SameRef(e, tables, values, fields, i))
    && (!IsRef(e, key) ==> SameText(e, values, fields, key))
  }

  /** The row can be matched at all: it has text for every key column that is not a reference. */
  ghost predicate Matchable(e: Entity, values: RowValues) {
    && !e.appendOnly && e.naturalKey != []
    && forall k :: 0 <= k < |e.naturalKey| && !IsRef(e, e.naturalKey[k]) ==> HasCell(values, e.naturalKey[k])
  }

  ghost predicate Matches(e: Entity, tables: Tables, values: RowValues, doc: Doc) {
    !doc.deleted && forall k :: 0 <= k < |e.naturalKey| ==> SamePart(e, tables, values, doc.fields, e.naturalKey[k])
  }

  ghost predicate FirstMatch(e: Entity, tables: Tables, values: RowValues, docs: seq<Doc>, i: nat) {
    && i < |docs| && Matches(e, tables, values, docs[i])
    && forall j :: 0 <= j < i ==> !Matches(e, tables, values, docs[j])
  }

  lemma PartIsSame(e: Entity, tables: Tables, values: RowValues, fields: Fields, key: string)
    requires Apart(e.refs) && Resolve(e, tables, values).Some?
    ensures var row := PartOf(e, key, Scalar(CellAt(values, Flat(key))), Resolve(e, tables, values).value);
            var stored := PartOf(e, key, FieldAt(fields, key), fields);
            && (row.Some? <==> IsRef(e, key) || HasCell(values, key))
            && (row.Some? ==> (stored == row <==> SamePart(e, tables, values, fields, key)))
  {
    RefForIs(e.refs, key);
    if IsRef(e, key) {
      var i: nat :| FirstRef(e.refs, key, i) && RefFor(e.refs, key) == Some(e.refs[i]);
      RefPartIsSame(e, tables, values, fields, i);
    }
  }

  lemma RefPartIsSame(e: Entity, tables: Tables, values: RowValues, fields: Fields, i: nat)
    requires Apart(e.refs) && Resolve(e, tables, values).Some? && i < |e.refs|
    ensures RefPart(e, FieldAt(fields, e.refs[i].docKey))
            == RefPart(e, FieldAt(Resolve(e, tables, values).value, e.refs[i].docKey))
            <==> SameRef(e, tables, values, fields, i)
  {
    ResolvesIff(e, tables, values);
    assert e.refs[..|e.refs|] == e.refs;
    ResolvedIs(e, |e.refs|, tables, values);
    ResolvedNames(e, e.refs, tables, values);
    var docKey, resolved := e.refs[i].docKey, Resolve(e, tables, values).value;
    if GivesRef(e, values, i) {
      var id := tables[e.refs[i].key][Typed(e, e.refs[i], values[Flat(e.refs[i].key)])];
      assert resolved[docKey] == Scalar(Text(id));
      assert id != "" ==> GivesId(e, tables, values, i, id);
    } else {
      assert docKey !in resolved;
    }
    assert Empty(fields, docKey) <==> Blank(FieldAt(fields, docKey));
  }

  lemma {:induction false} KeyIsSame(e: Entity, tables: Tables, values: RowValues, keys: seq<string>, fields: Fields)
    requires Apart(e.refs) && Resolve(e, tables, values).Some?
    ensures var row := RowKeyFrom(e, keys, values, Resolve(e, tables, values).value);
            && (row.Some? <==> forall k :: 0 <= k < |keys| && !IsRef(e, keys[k]) ==> HasCell(values, keys[k]))
            && (row.Some? ==>
                  (StoredKeyFrom(e, keys, fields) == row
                   <==> forall k :: 0 <= k < |keys| ==> SamePart(e, tables, values, fields, keys[k])))
  {
    if keys != [] {
      PartIsSame(e, tables, values, fields, keys[0]);
      KeyIsSame(e, tables, values, keys[1..], fields);
      KeyHeadTail(e, tables, values, keys, fields);
      assert forall k :: 1 <= k < |keys| ==> keys[k] == keys[1..][k - 1];
    }
  }

  lemma KeyHeadTail(e: Entity, tables: Tables, values: RowValues, keys: seq<string>, fields: Fields)
    requires keys != [] && Resolve(e, tables, values).Some?
    ensures var resolved := Resolve(e, tables, values).value;
            var part, rest := PartOf(e, keys[0], Scalar(CellAt(values, Flat(keys[0]))), resolved),
                              RowKeyFrom(e, keys[1..], values, resolved);
            var storedPart, storedRest := PartOf(e, keys[0], FieldAt(fields, keys[0]), fields),
                                          StoredKeyFrom(e, keys[1..], fields);
            var row := RowKeyFrom(e, keys, values, resolved);
            && (row.Some? <==> part.Some? && rest.Some?)
            && (row.Some? ==> (StoredKeyFrom(e, keys, fields) == row <==> storedPart == part && storedRest == rest))
  {
    var resolved := Resolve(e, tables, values).value;
    var row := RowKeyFrom(e, keys, values, resolved);
    var stored := StoredKeyFrom(e, keys, fields);
    if row.Some? {
      assert row.value[0] == PartOf(e, keys[0], Scalar(CellAt(values, Flat(keys[0]))), resolved).value;
      assert row.value[1..] == RowKeyFrom(e, keys[1..], values, resolved).value;
      if stored.Some? {
        assert stored.value[0] == PartOf(e, keys[0], FieldAt(fields, keys[0]), fields).value;
        assert stored.value[1..] == StoredKeyFrom(e, keys[1..], fields).value;
      }
    }
  }

  lemma RowKeyIs(e: Entity, tables: Tables, values: RowValues, doc: Doc)
    requires RefsApart(e) && Resolve(e, tables, values).Some?
    ensures var key := RowKey(e, values, Resolve(e, tables, values).value);
            && (key.Some? <==> Matchable(e, values))
            && (key.Some? ==> (!doc.deleted && StoredKey(e, doc) == key <==> Matches(e, tables, values, doc)))
  {
    if !Keyless(e) {
      KeyIsSame(e, tables, values, e.naturalKey, doc.fields);
    }
  }

  lemma {:induction false} FindLiveIsFirst(e: Entity, docs: seq<Doc>, key: Key)
    ensures FindLive(e, docs, key).None? <==>
      forall i :: 0 <= i < |docs| ==> docs[i].deleted || StoredKey(e, docs[i]) != Some(key)
    ensures FindLive(e, docs, key).Some? ==> forall i :: 0 <= i < FindLive(e, docs, key).value ==>
      docs[i].deleted || StoredKey(e, docs[i]) != Some(key)
  {
    if docs != [] {
      var n := |docs| - 1;
      FindLiveIsFirst(e, docs[..n], key);
      assert forall i :: 0 <= i < n ==> docs[..n][i] == docs[i];
    }
  }

  /** The lookup finds the first live record that matches the row. */
  lemma LookupIsFirstMatch(e: Entity, tables: Tables, values: RowValues, docs: seq<Doc>)
    requires RefsApart(e) && Resolve(e, tables, values).Some? && Matchable(e, values)
    ensures var key := RowKey(e, values, Resolve(e, tables, values).value);
            && key.Some?
            && match FindLive(e, docs, key.value)
               case Some(i) => FirstMatch(e, tables, values, docs, i)
               case None => forall j :: 0 <= j < |docs| ==> !Matches(e, tables, values, docs[j])
  {
    var key := RowKey(e, values, Resolve(e, tables, values).value);
    RowKeyIs(e, tables, values, Doc(map[], false, "", None));
    FindLiveIsFirst(e, docs, key.value);
    forall j | 0 <= j < |docs|
      ensures Matches(e, tables, values, docs[j]) <==> !docs[j].deleted && StoredKey(e, docs[j]) == key
    {
      RowKeyIs(e, tables, values, docs[j]);
    }
  }

  // ---- one row of the file, with writes that may be refused -----------------------------------------------

  /** What planning and writing the earlier rows leave for the next one. */
  ghost predicate Steady(e: Entity, index: Index, plan: Plan, s: Applied) {
    && AllLocated(e, index, s.placed, s.docs) && s.placed.Keys <= plan.keys
    && (s.failed == [] ==> s.placed.Keys == plan.keys)
  }

  /** Where a row lands, and what its record becomes. */
  ghost predicate Lands(e: Entity, tables: Tables, values: RowValues, actor: string, withDefaults: bool,
                        before: seq<Doc>, after: seq<Doc>, i: nat) {
    if i < |before| then
      && Matchable(e, values) && FirstMatch(e, tables, values, before, i)
      && |after| == |before| && after == before[i := after[i]]
      && Updates(e, tables, values, actor, before[i], after[i])
    else
      && (Matchable(e, values) ==> forall j :: 0 <= j < |before| ==> !Matches(e, tables, values, before[j]))
      && i == |before| && |after| == i + 1 && after[..i] == before
      && Creates(e, tables, values, actor, withDefaults, after[i])
  }

  /** The target of a planned row is what the lookup finds at that moment. */
  lemma TargetIsLookup(e: Entity, tables: Tables, index: Index, plan: Plan, s: Applied, row: Row, actor: string)
    requires Steady(e, index, plan, s) && Resolve(e, tables, row.values).Some?
    ensures var resolved := Resolve(e, tables, row.values).value;
            var key := RowKey(e, row.values, resolved);
            var next, n := PlanRow(e, tables, index, plan, row), |plan.steps|;
            && |next.steps| == n + 1 && next.steps[..n] == plan.steps && next.steps[n].key == key
            && var t := ApplyStep(e, s, next.steps[n], actor, false);
               && t.failed == s.failed
               && if key.Some? && FindLive(e, s.docs, key.value).Some? then
                    var i := FindLive(e, s.docs, key.value).value;
                    && t.docs == s.docs[i := UpdatedDoc(s.docs[i], DocFields(e, row.values, resolved, false), actor)]
                    && t.placed == s.placed && next.keys == plan.keys
                  else
                    exists creating ::
                      && (s.failed == [] ==> creating)
                      && t.docs == s.docs + [NewDoc(e, DocFields(e, row.values, resolved, creating), actor)]
                      && t.placed == PlacedAfter(index, s.placed, key, |s.docs|)
                      && next.keys == plan.keys + (if key.Some? then {key.value} else {})
  {
    var key := RowKey(e, row.values, Resolve(e, tables, row.values).value);
    if key.Some? {
      assert Located(e, index, s.placed, s.docs, key.value);
    }
  }

  lemma LocatedAfterNew(e: Entity, tables: Tables, index: Index, placed: Index, docs: seq<Doc>, values: RowValues,
                        actor: string, creating: bool, k: Key)
    requires WellFormed(e) && !Keyless(e) && Resolve(e, tables, values).Some?
    requires forall key :: Located(e, index, placed, docs, key)
    requires var key := RowKey(e, values, Resolve(e, tables, values).value);
             key.Some? ==> FindLive(e, docs, key.value).None?
    ensures var resolved := Resolve(e, tables, values).value;
            Located(e, index, PlacedAfter(index, placed, RowKey(e, values, resolved), |docs|),
                    docs + [NewDoc(e, DocFields(e, values, resolved, creating), actor)], k)
  {
    var resolved := Resolve(e, tables, values).value;
    var key := RowKey(e, values, resolved);
    NewKeyFrom(e, tables, values, creating, e.naturalKey, actor);
    FindLiveAppend(e, docs, NewDoc(e, DocFields(e, values, resolved, creating), actor), k);
    assert Located(e, index, placed, docs, k);
    if key.Some? {
      assert Located(e, index, placed, docs, key.value);
    }
  }

  lemma AllLocatedAfterNew(e: Entity, tables: Tables, index: Index, placed: Index, docs: seq<Doc>, values: RowValues,
                           actor: string, creating: bool)
    requires WellFormed(e) && Resolve(e, tables, values).Some? && AllLocated(e, index, placed, docs)
    requires var key := RowKey(e, values, Resolve(e, tables, values).value);
             key.Some? ==> FindLive(e, docs, key.value).None?
    ensures var resolved := Resolve(e, tables, values).value;
            AllLocated(e, index, PlacedAfter(index, placed, RowKey(e, values, resolved), |docs|),
                       docs + [NewDoc(e, DocFields(e, values, resolved, creating), actor)])
  {
    if !Keyless(e) {
      var resolved := Resolve(e, tables, values).value;
      forall k
        ensures Located(e, index, PlacedAfter(index, placed, RowKey(e, values, resolved), |docs|),
                        docs + [NewDoc(e, DocFields(e, values, resolved, creating), actor)], k)
      {
        LocatedAfterNew(e, tables, index, placed, docs, values, actor, creating, k);
      }
    }
  }

  lemma AllLocatedAfterUpdate(e: Entity, tables: Tables, index: Index, placed: Index, docs: seq<Doc>,
                              values: RowValues, actor: string, i: nat)
    requires WellFormed(e) && Resolve(e, tables, values).Some? && AllLocated(e, index, placed, docs)
    requires var key := RowKey(e, values, Resolve(e, tables, values).value);
             key.Some? && FindLive(e, docs, key.value) == Some(i)
    ensures i < |docs|
    ensures var change := DocFields(e, values, Resolve(e, tables, values).value, false);
            AllLocated(e, index, placed, docs[i := UpdatedDoc(docs[i], change, actor)])
  {
    var now := UpdatedDoc(docs[i], DocFields(e, values, Resolve(e, tables, values).value, false), actor);
    UpdatedKeyFrom(e, tables, values, e.naturalKey, docs[i], actor);
    var after := docs[i := now];
    forall k
      ensures Located(e, index, placed, after, k)
    {
      assert Located(e, index, placed, docs, k);
      FindLiveUpdate(e, docs, i, now, k);
    }
  }

  /** Landing in the same place with or without the defaults, which are there unless a write was refused before. */
  ghost predicate LandsIn(e: Entity, tables: Tables, values: RowValues, actor: string, unrefused: bool,
                          before: seq<Doc>, after: seq<Doc>, i: nat) {
    exists withDefaults ::
      (unrefused ==> withDefaults) && Lands(e, tables, values, actor, withDefaults, before, after, i)
  }

  /** A written row lands in the record the lookup finds, or else in a new one. */
  lemma WrittenLands(e: Entity, tables: Tables, values: RowValues, actor: string, unrefused: bool, creating: bool,
                     before: seq<Doc>, after: seq<Doc>) returns (i: nat)
    requires WellFormed(e) && RefsApart(e) && Resolve(e, tables, values).Some? && (unrefused ==> creating)
    requires var resolved := Resolve(e, tables, values).value;
             var key := RowKey(e, values, resolved);
             after == if key.Some? && FindLive(e, before, key.value).Some? then
                        var i := FindLive(e, before, key.value).value;
                        before[i := UpdatedDoc(before[i], DocFields(e, values, resolved, false), actor)]
                      else before + [NewDoc(e, DocFields(e, values, resolved, creating), actor)]
    ensures LandsIn(e, tables, values, actor, unrefused, before, after, i)
  {
    var resolved := Resolve(e, tables, values).value;
    var key := RowKey(e, values, resolved);
    RowKeyIs(e, tables, values, Doc(map[], false, "", None));
    if Matchable(e, values) {
      LookupIsFirstMatch(e, tables, values, before);
    }
    if key.Some? && FindLive(e, before, key.value).Some? {
      i := FindLive(e, before, key.value).value;
      UpdateUpdates(e, tables, values, actor, before[i]);
      assert Lands(e, tables, values, actor, true, before, after, i);
    } else {
      i := |before|;
      NewCreates(e, tables, values, actor, creating);
      assert Lands(e, tables, values, actor, creating, before, after, i);
    }
  }

  /** A row that resolves lands, unless its write is refused. */
  lemma RowLands(e: Entity, tables: Tables, index: Index, plan: Plan, s: Applied, row: Row, actor: string)
    returns (i: nat)
    requires WellFormed(e) && RefsApart(e) && Steady(e, index, plan, s) && Resolve(e, tables, row.values).Some?
    ensures var next, n := PlanRow(e, tables, index, plan, row), |plan.steps|;
            && |next.steps| == n + 1 && next.steps[..n] == plan.steps
            && var t := ApplyStep(e, s, next.steps[n], actor, false);
               && t.failed == s.failed && Steady(e, index, next, t)
               && LandsIn(e, tables, row.values, actor, s.failed == [], s.docs, t.docs, i)
  {
    var resolved := Resolve(e, tables, row.values).value;
    var key := RowKey(e, row.values, resolved);
    var next, n := PlanRow(e, tables, index, plan, row), |plan.steps|;
    TargetIsLookup(e, tables, index, plan, s, row, actor);
    var t := ApplyStep(e, s, next.steps[n], actor, false);
    if key.Some? && FindLive(e, s.docs, key.value).Some? {
      AllLocatedAfterUpdate(e, tables, index, s.placed, s.docs, row.values, actor, FindLive(e, s.docs, key.value).value);
      i := WrittenLands(e, tables, row.values, actor, s.failed == [], true, s.docs, t.docs);
    } else {
      var creating :| (s.failed == [] ==> creating)
        && t.docs == s.docs + [NewDoc(e, DocFields(e, row.values, resolved, creating), actor)];
      AllLocatedAfterNew(e, tables, index, s.placed, s.docs, row.values, actor, creating);
      i := WrittenLands(e, tables, row.values, actor, s.failed == [], creating, s.docs, t.docs);
    }
  }

  // ---- the whole file -------------------------------------------------------------------------------------

  /** How many rows resolve: the next one that does is written as this number. */
  ghost function Resolving(e: Entity, tables: Tables, rows: seq<Row>): nat {
    if rows == [] then 0
    else Resolving(e, tables, rows[..|rows| - 1]) + (if AllKnown(e, tables, rows[|rows| - 1].values) then 1 else 0)
  }

  /** The collection after these rows of the file. */
  ghost function After(e: Entity, tables: Tables, docs: seq<Doc>, rows: seq<Row>, actor: string,
                       refused: nat -> bool): Applied {
    ApplySteps(e, docs, PlanRows(e, tables, IndexOf(e, docs), rows).steps, actor, refused)
  }

  lemma RefusedStays(e: Entity, tables: Tables, index: Index, plan: Plan, s: Applied, row: Row, actor: string)
    requires Steady(e, index, plan, s) && Resolve(e, tables, row.values).Some?
    ensures var next, n := PlanRow(e, tables, index, plan, row), |plan.steps|;
            && |next.steps| == n + 1 && next.steps[..n] == plan.steps
            && var t := ApplyStep(e, s, next.steps[n], actor, true);
               t.docs == s.docs && Steady(e, index, next, t)
  {
  }

  lemma StartsSteady(e: Entity, docs: seq<Doc>)
    ensures Steady(e, IndexOf(e, docs), Plan([], {}, 0, 0, []), Applied(docs, map[], 0, 0, []))
  {
    forall key | !Keyless(e)
      ensures Located(e, IndexOf(e, docs), map[], docs, key)
    {
      IndexIsLookup(e, docs, key);
    }
  }

  /** What the last row of some rows does to the collection. */
  lemma LastRow(e: Entity, tables: Tables, docs: seq<Doc>, rows: seq<Row>, actor: string, refused: nat -> bool)
    returns (i: nat)
    requires WellFormed(e) && RefsApart(e) && rows != []
    requires var before := rows[..|rows| - 1];
             var plan := PlanRows(e, tables, IndexOf(e, docs), before);
             && Steady(e, IndexOf(e, docs), plan, After(e, tables, docs, before, actor, refused))
             && |plan.steps| == Resolving(e, tables, before)
    ensures var before, values := rows[..|rows| - 1], rows[|rows| - 1].values;
            var s, t := After(e, tables, docs, before, actor, refused), After(e, tables, docs, rows, actor, refused);
            && Steady(e, IndexOf(e, docs), PlanRows(e, tables, IndexOf(e, docs), rows), t)
            && |PlanRows(e, tables, IndexOf(e, docs), rows).steps| == Resolving(e, tables, rows)
            && (if AllKnown(e, tables, values) && !refused(Resolving(e, tables, before))
                then LandsIn(e, tables, values, actor, s.failed == [], s.docs, t.docs, i) else t.docs == s.docs)
  {
    var n := |rows| - 1;
    var index := IndexOf(e, docs);
    var plan := PlanRows(e, tables, index, rows[..n]);
    var s := After(e, tables, docs, rows[..n], actor, refused);
    ResolvesIff(e, tables, rows[n].values);
    i := 0;
    if AllKnown(e, tables, rows[n].values) {
      if refused(|plan.steps|) {
        RefusedStays(e, tables, index, plan, s, rows[n], actor);
      } else {
        i := RowLands(e, tables, index, plan, s, rows[n], actor);
      }
    }
  }

  lemma {:induction false} StaysSteady(e: Entity, tables: Tables, docs: seq<Doc>, rows: seq<Row>, actor: string,
                                       refused: nat -> bool)
    requires WellFormed(e) && RefsApart(e)
    ensures Steady(e, IndexOf(e, docs), PlanRows(e, tables, IndexOf(e, docs), rows),
                   After(e, tables, docs, rows, actor, refused))
    ensures |PlanRows(e, tables, IndexOf(e, docs), rows).steps| == Resolving(e, tables, rows)
  {
    if rows == [] {
      StartsSteady(e, docs);
    } else {
      StaysSteady(e, tables, docs, rows[..|rows| - 1], actor, refused);
      var i := LastRow(e, tables, docs, rows, actor, refused);
    }
  }

  /** Some row from this one on gives the field. */
  ghost predicate LaterNames(e: Entity, rows: seq<Row>, r: nat, name: string) {
    exists q :: r <= q < |rows| && Names(e, rows[q].values, name)
  }

  ghost predicate LaterNamesChild(e: Entity, rows: seq<Row>, r: nat, parent: string, child: string) {
    exists q :: r <= q < |rows| && NamesChild(e, rows[q].values, parent, child)
  }

  lemma LaterSnoc(e: Entity, rows: seq<Row>, r: nat, name: string, parent: string, child: string)
    requires r < |rows|
    ensures LaterNames(e, rows, r, name)
            <==> LaterNames(e, rows[..|rows| - 1], r, name) || Names(e, rows[|rows| - 1].values, name)
    ensures LaterNamesChild(e, rows, r, parent, child)
            <==> LaterNamesChild(e, rows[..|rows| - 1], r, parent, child)
                 || NamesChild(e, rows[|rows| - 1].values, parent, child)
  {
    var before := rows[..|rows| - 1];
    assert forall q :: 0 <= q < |before| ==> before[q] == rows[q];
    if q :| r <= q < |before| && Names(e, before[q].values, name) {
      assert Names(e, rows[q].values, name);
    }
    if q :| r <= q < |before| && NamesChild(e, before[q].values, parent, child) {
      assert NamesChild(e, rows[q].values, parent, child);
    }
  }

  lemma LandingKeeps(e: Entity, tables: Tables, values: RowValues, actor: string, unrefused: bool,
                     before: seq<Doc>, after: seq<Doc>, at: nat, i: nat, name: string, parent: string, child: string)
    requires LandsIn(e, tables, values, actor, unrefused, before, after, at) && i < |before|
    ensures i < |after|
    ensures !Names(e, values, name) ==> Same(after[i].fields, before[i].fields, name)
    ensures !NamesChild(e, values, parent, child) ==> SameChild(after[i].fields, before[i].fields, parent, child)
  {
  }

  lemma LastRowKeeps(e: Entity, tables: Tables, docs: seq<Doc>, rows: seq<Row>, actor: string, refused: nat -> bool,
                     i: nat, name: string, parent: string, child: string)
    requires WellFormed(e) && RefsApart(e) && rows != []
    requires i < |After(e, tables, docs, rows[..|rows| - 1], actor, refused).docs|
    ensures var was, now := After(e, tables, docs, rows[..|rows| - 1], actor, refused).docs,
                            After(e, tables, docs, rows, actor, refused).docs;
            && i < |now|
            && (!Names(e, rows[|rows| - 1].values, name) ==> Same(now[i].fields, was[i].fields, name))
            && (!NamesChild(e, rows[|rows| - 1].values, parent, child) ==>
                  SameChild(now[i].fields, was[i].fields, parent, child))
  {
    var n := |rows| - 1;
    var was, now := After(e, tables, docs, rows[..n], actor, refused), After(e, tables, docs, rows, actor, refused);
    StaysSteady(e, tables, docs, rows[..n], actor, refused);
    var at := LastRow(e, tables, docs, rows, actor, refused);
    if now.docs != was.docs {
      LandingKeeps(e, tables, rows[n].values, actor, was.failed == [], was.docs, now.docs, at, i, name, parent, child);
    }
  }

  /** What no later row gives stays as it is, whichever later writes are refused. */
  lemma {:induction false} FieldStays(
    e: Entity, tables: Tables, docs: seq<Doc>, rows: seq<Row>, actor: string, refused: nat -> bool, r: nat,
    i: nat, name: string, parent: string, child: string)
    requires WellFormed(e) && RefsApart(e) && r <= |rows|
    requires i < |After(e, tables, docs, rows[..r], actor, refused).docs|
    ensures var was, now := After(e, tables, docs, rows[..r], actor, refused).docs,
                            After(e, tables, docs, rows, actor, refused).docs;
            && i < |now|
            && (!LaterNames(e, rows, r, name) ==> Same(now[i].fields, was[i].fields, name))
            && (!LaterNamesChild(e, rows, r, parent, child) ==>
                  SameChild(now[i].fields, was[i].fields, parent, child))
  {
    if r == |rows| {
      assert rows[..r] == rows;
    } else {
      var n := |rows| - 1;
      assert rows[..n][..r] == rows[..r];
      FieldStays(e, tables, docs, rows[..n], actor, refused, r, i, name, parent, child);
      LaterSnoc(e, rows, r, name, parent, child);
      LastRowKeeps(e, tables, docs, rows, actor, refused, i, name, parent, child);
    }
  }

  /** What a row gives is in these fields, except where a later row gives the same. */
  ghost predicate StillHolds(e: Entity, tables: Tables, rows: seq<Row>, r: nat, fields: Fields)
    requires r < |rows|
  {
    var values := rows[r].values;
    && (forall k :: 0 <= k < |e.refs| && !LaterNames(e, rows, r + 1, e.refs[k].docKey) ==>
          RefHeld(e, tables, values, fields, k))
    && (forall name :: !LaterNames(e, rows, r + 1, name) ==> FlatHeld(e, values, fields, name))
    && (forall parent, child :: !LaterNamesChild(e, rows, r + 1, parent, child) ==>
          ChildHeld(e, values, fields, parent, child))
  }

  lemma LandedHolds(e: Entity, tables: Tables, values: RowValues, actor: string, unrefused: bool,
                    before: seq<Doc>, after: seq<Doc>, i: nat)
    requires LandsIn(e, tables, values, actor, unrefused, before, after, i)
    ensures i < |after| && Holds(e, tables, values, after[i].fields)
  {
  }

  /** A row that goes through lands. */
  lemma RowGoesThrough(e: Entity, tables: Tables, docs: seq<Doc>, rows: seq<Row>, actor: string,
                       refused: nat -> bool, r: nat)
    returns (i: nat)
    requires WellFormed(e) && RefsApart(e) && r < |rows| && AllKnown(e, tables, rows[r].values)
    requires !refused(Resolving(e, tables, rows[..r]))
    ensures var before, after := After(e, tables, docs, rows[..r], actor, refused),
                                 After(e, tables, docs, rows[..r + 1], actor, refused);
            LandsIn(e, tables, rows[r].values, actor, before.failed == [], before.docs, after.docs, i)
  {
    assert rows[..r + 1][..r] == rows[..r];
    StaysSteady(e, tables, docs, rows[..r], actor, refused);
    i := LastRow(e, tables, docs, rows[..r + 1], actor, refused);
  }

  /** What a record holds after a row, it holds at the end, except what a later row gives. */
  lemma HoldsToTheEnd(e: Entity, tables: Tables, docs: seq<Doc>, rows: seq<Row>, actor: string,
                      refused: nat -> bool, r: nat, i: nat)
    requires WellFormed(e) && RefsApart(e) && r < |rows|
    requires var after := After(e, tables, docs, rows[..r + 1], actor, refused).docs;
             i < |after| && Holds(e, tables, rows[r].values, after[i].fields)
    ensures var final := After(e, tables, docs, rows, actor, refused).docs;
            i < |final| && StillHolds(e, tables, rows, r, final[i].fields)
  {
    FieldStays(e, tables, docs, rows, actor, refused, r + 1, i, "", "", "");
    var was := After(e, tables, docs, rows[..r + 1], actor, refused).docs[i].fields;
    var now := After(e, tables, docs, rows, actor, refused).docs[i].fields;
    forall name | !LaterNames(e, rows, r + 1, name)
      ensures Same(now, was, name)
    {
      FieldStays(e, tables, docs, rows, actor, refused, r + 1, i, name, "", "");
    }
    forall parent, child | !LaterNamesChild(e, rows, r + 1, parent, child)
      ensures SameChild(now, was, parent, child)
    {
      FieldStays(e, tables, docs, rows, actor, refused, r + 1, i, "", parent, child);
    }
    SameHolds(e, tables, rows, r, was, now);
  }

  /**
   Over a whole import, whichever writes the database refuses: a row whose references are all known and
   whose own write goes through lands in the first live record that matches it, or in a new one when none
   does, and at the end that record still holds everything the row gave, except what a later row gave too.
   */
  lemma ImportedRowsStay(e: Entity, tables: Tables, docs: seq<Doc>, rows: seq<Row>, actor: string,
                         refused: nat -> bool, r: nat)
    returns (i: nat)
    requires WellFormed(e) && RefsApart(e) && r < |rows| && AllKnown(e, tables, rows[r].values)
    requires !refused(Resolving(e, tables, rows[..r]))
    ensures var before, after := After(e, tables, docs, rows[..r], actor, refused),
                                 After(e, tables, docs, rows[..r + 1], actor, refused);
            LandsIn(e, tables, rows[r].values, actor, before.failed == [], before.docs, after.docs, i)
    ensures var final := After(e, tables, docs, rows, actor, refused).docs;
            i < |final| && StillHolds(e, tables, rows, r, final[i].fields)
  {
    i := RowGoesThrough(e, tables, docs, rows, actor, refused, r);
    LandedHolds(e, tables, rows[r].values, actor, After(e, tables, docs, rows[..r], actor, refused).failed == [],
      After(e, tables, docs, rows[..r], actor, refused).docs,
      After(e, tables, docs, rows[..r + 1], actor, refused).docs, i);
    HoldsToTheEnd(e, tables, docs, rows, actor, refused, r, i);
  }

  lemma SameHolds(e: Entity, tables: Tables, rows: seq<Row>, r: nat, was: Fields, now: Fields)
    requires r < |rows| && Holds(e, tables, rows[r].values, was)
    requires forall name :: !LaterNames(e, rows, r + 1, name) ==> Same(now, was, name)
    requires forall parent, child :: !LaterNamesChild(e, rows, r + 1, parent, child) ==>
      SameChild(now, was, parent, child)
    ensures StillHolds(e, tables, rows, r, now)
  {
    var values := rows[r].values;
    forall k: nat | k < |e.refs| && !LaterNames(e, rows, r + 1, e.refs[k].docKey)
      ensures RefHeld(e, tables, values, now, k)
    {
      assert RefHeld(e, tables, values, was, k) && Same(now, was, e.refs[k].docKey);
    }
    forall name | !LaterNames(e, rows, r + 1, name)
      ensures FlatHeld(e, values, now, name)
    {
      assert FlatHeld(e, values, was, name) && Same(now, was, name);
    }
    forall parent, child | !LaterNamesChild(e, rows, r + 1, parent, child)
      ensures ChildHeld(e, values, now, parent, child)
    {
      assert ChildHeld(e, values, was, parent, child) && SameChild(now, was, parent, child);
    }
  }

  // ---- the service ----------------------------------------------------------------------------------------

  /** A record that a reference column may stand for. */
  datatype Target = Target(id: string, doc: Doc)

  /** A live record with this text in the field its column is matched on. */
  predicate ReadsAs(e: Entity, foldCase: bool, field: string, target: Target, text: string) {
    && !target.doc.deleted && !Empty(target.doc.fields, field)
    && text == if foldCase then e.fold(e.textOf(target.doc.fields[field])) else e.textOf(target.doc.fields[field])
  }

  ghost predicate FirstReads(e: Entity, foldCase: bool, field: string, targets: seq<Target>, text: string, i: nat) {
    && i < |targets| && ReadsAs(e, foldCase, field, targets[i], text)
    && forall j :: 0 <= j < i ==> !ReadsAs(e, foldCase, field, targets[j], text)
  }

  /** The lookup table of one reference column: each text stands for the oldest live record that reads so. */
  method BuildTable(e: Entity, foldCase: bool, field: string, targets: seq<Target>) returns (table: map<string, string>)
    ensures forall text :: text in table ==> exists i: nat :: FirstReads(e, foldCase, field, targets, text, i)
    ensures forall text, i: nat :: FirstReads(e, foldCase, field, targets, text, i) ==>
      text in table && table[text] == targets[i].id
  {
    table := map[];
    for n := 0 to |targets|
      invariant forall text :: text in table ==>
        exists i: nat :: i < n && FirstReads(e, foldCase, field, targets, text, i)
      invariant forall text, i: nat :: i < n && FirstReads(e, foldCase, field, targets, text, i) ==>
        text in table && table[text] == targets[i].id
    {
      var target := targets[n];
      if !target.doc.deleted && !Empty(target.doc.fields, field) {
        var raw := e.textOf(target.doc.fields[field]);
        var text := if foldCase then e.fold(raw) else raw;
        if text !in table {
          NobodyBefore(e, foldCase, field, targets, text, n);
          assert FirstReads(e, foldCase, field, targets, text, n);
          table := table[text := target.id];
        }
      }
    }
  }

  lemma {:induction false} NobodyBefore(e: Entity, foldCase: bool, field: string, targets: seq<Target>, text: string,
                                        n: nat)
    requires n <= |targets|
    requires forall i: nat :: i < n ==> !FirstReads(e, foldCase, field, targets, text, i)
    ensures forall j :: 0 <= j < n ==> !ReadsAs(e, foldCase, field, targets[j], text)
  {
    if n > 0 {
      NobodyBefore(e, foldCase, field, targets, text, n - 1);
      assert !FirstReads(e, foldCase, field, targets, text, n - 1);
    }
  }

  /** This is the number of a row with a reference that matches nothing. */
  ghost predicate RejectedAs(e: Entity, tables: Tables, rows: seq<Row>, m: nat) {
    exists r :: 0 <= r < |rows| && rows[r].number == m && !AllKnown(e, tables, rows[r].values)
  }

  lemma RejectedSnoc(e: Entity, tables: Tables, rows: seq<Row>, m: nat)
    requires rows != []
    ensures var n := |rows| - 1;
            RejectedAs(e, tables, rows, m)
            <==> RejectedAs(e, tables, rows[..n], m) || (rows[n].number == m && !AllKnown(e, tables, rows[n].values))
  {
    var before := rows[..|rows| - 1];
    if r :| 0 <= r < |before| && before[r].number == m && !AllKnown(e, tables, before[r].values) {
      assert rows[r] == before[r];
    }
    if r :| 0 <= r < |rows| && rows[r].number == m && !AllKnown(e, tables, rows[r].values) {
      assert r < |before| ==> before[r] == rows[r];
    }
  }

  lemma {:induction false} RejectedIs(e: Entity, tables: Tables, index: Index, rows: seq<Row>, m: nat)
    ensures m in PlanRows(e, tables, index, rows).rejected <==> RejectedAs(e, tables, rows, m)
  {
    if rows != [] {
      RejectedIs(e, tables, index, rows[..|rows| - 1], m);
      ResolvesIff(e, tables, rows[|rows| - 1].values);
      RejectedSnoc(e, tables, rows, m);
    }
  }

  /** The planned write of one row: its values, for the first stored record that matches it. */
  ghost predicate PlansFor(e: Entity, tables: Tables, docs: seq<Doc>, row: Row, step: Planned) {
    && step.row == row.number && Holds(e, tables, row.values, step.fields)
    && match step.existing
       case Some(i) => Matchable(e, row.values) && FirstMatch(e, tables, row.values, docs, i)
       case None => Matchable(e, row.values) ==> forall j :: 0 <= j < |docs| ==> !Matches(e, tables, row.values, docs[j])
  }

  /** One planned write for each row that resolves, in the order of the file. */
  ghost predicate Plans(e: Entity, tables: Tables, docs: seq<Doc>, rows: seq<Row>, steps: seq<Planned>) {
    && |steps| == Resolving(e, tables, rows)
    && forall r :: 0 <= r < |rows| ==> PlannedAt(e, tables, docs, rows, steps, r)
  }

  ghost predicate PlannedAt(e: Entity, tables: Tables, docs: seq<Doc>, rows: seq<Row>, steps: seq<Planned>, r: nat)
    requires r < |rows|
  {
    AllKnown(e, tables, rows[r].values) ==>
      && Resolving(e, tables, rows[..r]) < |steps|
      && PlansFor(e, tables, docs, rows[r], steps[Resolving(e, tables, rows[..r])])
  }

  lemma PlansSnoc(e: Entity, tables: Tables, docs: seq<Doc>, rows: seq<Row>, steps: seq<Planned>, next: seq<Planned>)
    requires rows != [] && Plans(e, tables, docs, rows[..|rows| - 1], steps)
    requires if AllKnown(e, tables, rows[|rows| - 1].values)
             then |next| == |steps| + 1 && next[..|steps|] == steps
                  && PlansFor(e, tables, docs, rows[|rows| - 1], next[|steps|])
             else next == steps
    ensures Plans(e, tables, docs, rows, next)
  {
    var n := |rows| - 1;
    forall r: nat | r < n
      ensures PlannedAt(e, tables, docs, rows, next, r)
    {
      assert PlannedAt(e, tables, docs, rows[..n], steps, r);
      assert rows[..n][r] == rows[r] && rows[..n][..r] == rows[..r];
    }
  }

  lemma LastPlanned(e: Entity, tables: Tables, docs: seq<Doc>, plan: Plan, row: Row)
    requires WellFormed(e) && RefsApart(e) && AllKnown(e, tables, row.values)
    ensures var next, n := PlanRow(e, tables, IndexOf(e, docs), plan, row), |plan.steps|;
            |next.steps| == n + 1 && next.steps[..n] == plan.steps && PlansFor(e, tables, docs, row, next.steps[n])
  {
    ResolvesIff(e, tables, row.values);
    ChangeHolds(e, tables, row.values, true);
    ChangeHolds(e, tables, row.values, false);
    RowKeyIs(e, tables, row.values, Doc(map[], false, "", None));
    var key := RowKey(e, row.values, Resolve(e, tables, row.values).value);
    if key.Some? {
      IndexIsLookup(e, docs, key.value);
      LookupIsFirstMatch(e, tables, row.values, docs);
    }
  }

  lemma {:induction false} PlanIs(e: Entity, tables: Tables, docs: seq<Doc>, rows: seq<Row>)
    requires WellFormed(e) && RefsApart(e)
    ensures Plans(e, tables, docs, rows, PlanRows(e, tables, IndexOf(e, docs), rows).steps)
  {
    if rows != [] {
      var n := |rows| - 1;
      var plan := PlanRows(e, tables, IndexOf(e, docs), rows[..n]);
      PlanIs(e, tables, docs, rows[..n]);
      ResolvesIff(e, tables, rows[n].values);
      if AllKnown(e, tables, rows[n].values) {
        LastPlanned(e, tables, docs, plan, rows[n]);
      }
      PlansSnoc(e, tables, docs, rows, plan.steps, PlanRows(e, tables, IndexOf(e, docs), rows).steps);
    }
  }

  /** The rows rejected are those with an unknown reference, and every other one is planned for its record. */
  ghost predicate WellPlanned(e: Entity, tables: Tables, docs: seq<Doc>, index: Index, rows: seq<Row>, plan: Plan) {
    && (forall m :: m in plan.rejected <==> RejectedAs(e, tables, rows, m))
    && (WellFormed(e) && RefsApart(e) && index == IndexOf(e, docs) ==> Plans(e, tables, docs, rows, plan.steps))
  }

  lemma PlanIsWell(e: Entity, tables: Tables, docs: seq<Doc>, index: Index, rows: seq<Row>)
    ensures WellPlanned(e, tables, docs, index, rows, PlanRows(e, tables, index, rows))
  {
    forall m
      ensures m in PlanRows(e, tables, index, rows).rejected <==> RejectedAs(e, tables, rows, m)
    {
      RejectedIs(e, tables, index, rows, m);
    }
    if WellFormed(e) && RefsApart(e) && index == IndexOf(e, docs) {
      PlanIs(e, tables, docs, rows);
    }
  }

  /** Every row that goes through is in some record, except for what later rows give. */
  ghost predicate AllKept(e: Entity, tables: Tables, rows: seq<Row>, refused: nat -> bool, docs: seq<Doc>) {
    forall r :: 0 <= r < |rows| && AllKnown(e, tables, rows[r].values) && !refused(Resolving(e, tables, rows[..r])) ==>
      exists i :: 0 <= i < |docs| && StillHolds(e, tables, rows, r, docs[i].fields)
  }

  lemma AllRowsKept(e: Entity, tables: Tables, docs: seq<Doc>, rows: seq<Row>, actor: string, refused: nat -> bool)
    requires WellFormed(e) && RefsApart(e)
    ensures AllKept(e, tables, rows, refused, After(e, tables, docs, rows, actor, refused).docs)
  {
    var final := After(e, tables, docs, rows, actor, refused).docs;
    forall r: nat | r < |rows| && AllKnown(e, tables, rows[r].values) && !refused(Resolving(e, tables, rows[..r]))
      ensures exists i :: 0 <= i < |final| && StillHolds(e, tables, rows, r, final[i].fields)
    {
      var i := ImportedRowsStay(e, tables, docs, rows, actor, refused, r);
    }
  }

    datatype Mode = Validate | Commit

  datatype Report = Report(rows: nat, created: nat, updated: nat, failed: set<nat>)

  class Collection {
    var docs: seq<Doc>

    method BuildIndex(e: Entity) returns (index: Index)
      ensures index == IndexOf(e, docs)
    {
      index := map[];
      if Keyless(e) {
        return;
      }
      for i := 0 to |docs|
        invariant index == IndexOf(e, docs[..i])
      {
        assert docs[..i + 1][..i] == docs[..i];
        var key := StoredKey(e, docs[i]);
        if !docs[i].deleted && key.Some? && key.value !in index {
          index := index[key.value := i];
        }
      }
      assert docs[..|docs|] == docs;
    }

    method PlanAll(e: Entity, tables: Tables, index: Index, rows: seq<Row>) returns (plan: Plan)
      ensures plan == PlanRows(e, tables, index, rows)
      ensures WellPlanned(e, tables, docs, index, rows, plan)
    {
      var steps, keys, created, updated, rejected := [], {}, 0, 0, [];
      for i := 0 to |rows|
        invariant Plan(steps, keys, created, updated, rejected) == PlanRows(e, tables, index, rows[..i])
      {
        assert rows[..i + 1][..i] == rows[..i];
        var values := rows[i].values;
        var resolved := Resolve(e, tables, values);
        if resolved.None? {
          rejected := rejected + [rows[i].number];
          continue;
        }
        var key := RowKey(e, values, resolved.value);
        var existing := if key.Some? && key.value in index then Some(index[key.value]) else None;
        var repeat := existing.None? && key.Some? && key.value in keys;
        var creating := existing.None? && !repeat;
        if creating {
          created := created + 1;
          if key.Some? {
            keys := keys + {key.value};
          }
        } else {
          updated := updated + 1;
        }
        steps := steps + [Planned(rows[i].number, key, existing, DocFields(e, values, resolved.value, creating))];
      }
      assert rows[..|rows|] == rows;
      plan := Plan(steps, keys, created, updated, rejected);
      PlanIsWell(e, tables, docs, index, rows);
    }

    method Apply(e: Entity, steps: seq<Planned>, actor: string, refused: nat -> bool)
      returns (created: nat, updated: nat, failed: seq<nat>)
      modifies this
      ensures var s := ApplySteps(e, old(docs), steps, actor, refused);
              docs == s.docs && created == s.created && updated == s.updated && failed == s.failed
    {
      created, updated, failed := 0, 0, [];
      var placed: Index := map[];
      for i := 0 to |steps|
        invariant Applied(docs, placed, created, updated, failed)
               == ApplySteps(e, old(docs), steps[..i], actor, refused)
      {
        assert steps[..i + 1][..i] == steps[..i];
        var step := steps[i];
        var target := step.existing;
        if target.None? && step.key.Some? && step.key.value in placed {
          target := Some(placed[step.key.value]);
        }
        if refused(i) {
          failed := failed + [step.row];
          continue;
        }
        if target.None? {
          if step.key.Some? {
            placed := placed[step.key.value := |docs|];
          }
          docs := docs + [NewDoc(e, step.fields, actor)];
          created := created + 1;
        } else {
          if target.value < |docs| {
            docs := docs[target.value := UpdatedDoc(docs[target.value], step.fields, actor)];
          }
          updated := updated + 1;
        }
      }
      assert steps[..|steps|] == steps;
    }

    /** Read, plan, and in commit mode apply; a dry run touches nothing. */
    method Import(e: Entity, tables: Tables, parsed: CsvFile.Body, actor: string, mode: Mode, refused: nat -> bool)
      returns (report: Report)
      modifies this
      ensures var rows := RowsOf(parsed.rows);
              var plan := PlanRows(e, tables, IndexOf(e, old(docs)), rows);
              var s := ApplySteps(e, old(docs), plan.steps, actor, refused);
              var bad := CsvFile.IssueRows(parsed.issues);
              if mode.Validate? then
                && docs == old(docs)
                && report == Report(parsed.seen, plan.created, plan.updated, FailedRows(bad, plan, []))
              else
                && docs == s.docs
                && report == Report(parsed.seen, s.created, s.updated, FailedRows(bad, plan, s.failed))
      ensures mode.Commit? && WellFormed(e) && RefsApart(e) ==> AllKept(e, tables, RowsOf(parsed.rows), refused, docs)
      ensures forall m :: RejectedAs(e, tables, RowsOf(parsed.rows), m) ==> m in report.failed
    {
      var index := BuildIndex(e);
      var plan := PlanAll(e, tables, index, RowsOf(parsed.rows));
      var created, updated, failed := plan.created, plan.updated, [];
      if mode.Commit? {
        created, updated, failed := Apply(e, plan.steps, actor, refused);
      }
      report := Report(parsed.seen, created, updated,
                       FailedRows(CsvFile.IssueRows(parsed.issues), plan, failed));
      if mode.Commit? && WellFormed(e) && RefsApart(e) {
        AllRowsKept(e, tables, old(docs), RowsOf(parsed.rows), actor, refused);
      }
    }
  }

  /** From the text of the data rows to the report: nothing is dropped or counted twice. */
  lemma ReportAddsUp(e: Entity, tables: Tables, docs: seq<Doc>, lib: Library,
                     columns: seq<Option<Field>>, records: seq<seq<string>>, actor: string, refused: nat -> bool)
    ensures var body := CsvFile.ReadBody(lib, columns, records);
            var plan := PlanRows(e, tables, IndexOf(e, docs), RowsOf(body.rows));
            var s := ApplySteps(e, docs, plan.steps, actor, refused);
            var bad := CsvFile.IssueRows(body.issues);
            && plan.created + plan.updated + |FailedRows(bad, plan, [])| == body.seen
            && s.created + s.updated + |FailedRows(bad, plan, s.failed)| == body.seen
  {
    CsvFile.EveryRowKeptOrReported(lib, columns, records);
    var body := CsvFile.ReadBody(lib, columns, records);
    var rows := RowsOf(body.rows);
    assert RowNumbers(rows) == CsvFile.Numbers(body.rows);
    forall m | m in CsvFile.Members(RowNumbers(rows))
      ensures m !in CsvFile.IssueRows(body.issues)
    {
      assert m in CsvFile.Members(CsvFile.Numbers(body.rows));
    }
    EveryRowCounted(e, tables, docs, rows, CsvFile.IssueRows(body.issues), actor, refused);
  }
}
