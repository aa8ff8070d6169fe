/** The compiled statements of `structured.put` against one reference operation on a keyed table. */
module PutRefinement {
  import opened Wrappers
  import opened Sequences
  import opened PutModes

  // --- The reference operation ---

  /** The record's key: its scope, then its identity. */
  function KeyOf(s: Settings, context: Context, data: seq<(string, Cell)>): seq<Cell>
    requires ScopeValues(s, context).Some?
  {
    ScopeValues(s, context).value + IdentityValues(s, data)
  }

  predicate IsMutable(s: Settings, f: FieldLayout) { f.mutates && f.name !in s.identity }

  function NewCell(s: Settings, context: Context, data: seq<(string, Cell)>, now: int, c: Column): Cell
    requires ScopeValues(s, context).Some?
  {
    match c
    case Tenant => Text(context.tenant.value)
    case ScopeOf(key) => (if key in context.scope then Text(context.scope[key]) else Null)
    case OfField(column) => (if AtColumn(s.fields, column).Some? then Get(data, AtColumn(s.fields, column).value.name) else Null)
    case RecordVersion => Number(1)
    case CreatedAt => Time(now)
    case UpdatedAt => Time(now)
  }

  /** A new record: the given fields, NULL for the rest, version 1. */
  function NewRow(s: Settings, context: Context, data: seq<(string, Cell)>, now: int): Row
    requires ScopeValues(s, context).Some?
  {
    map c | c in AllColumns(s) :: NewCell(s, context, data, now, c)
  }

  function PutCell(s: Settings, own: Cell, data: seq<(string, Cell)>, now: int, c: Column): Cell {
    match c
    case OfField(column) =>
      (var f := AtColumn(s.fields, column);
       if f.Some? && IsMutable(s, f.value) then Get(data, f.value.name) else own)
    case RecordVersion => (if MutableFields(s) == [] then own else Next(own))
    case UpdatedAt => (if MutableFields(s) == [] then own else Time(now))
    case _ => own
  }

  /** A whole put on an existing record: mutable fields given or NULL, the rest kept; the version counts if any is mutable. */
  function PutRow(s: Settings, row: Row, data: seq<(string, Cell)>, now: int): Row {
    map c | c in row :: PutCell(s, row[c], data, now, c)
  }

  function Next(v: Cell): Cell { if v.Number? then Number(v.n + 1) else v }

  function ChangedCell(s: Settings, own: Cell, data: seq<(string, Cell)>, now: int, c: Column): Cell {
    match c
    case OfField(column) =>
      (var f := AtColumn(s.fields, column);
       if f.Some? && f.value.name !in s.identity && Has(data, f.value.name) then Get(data, f.value.name) else own)
    case RecordVersion => Next(own)
    case UpdatedAt => Time(now)
    case _ => own
  }

  /** A version-checked put: only the given fields change. */
  function ChangedRow(s: Settings, row: Row, data: seq<(string, Cell)>, now: int): Row {
    map c | c in row :: ChangedCell(s, row[c], data, now, c)
  }

  /** The record after a put, from the record before it if there is one. */
  function RecordAfter(s: Settings, before: Option<Row>, context: Context, put: Put, now: int): Result<Row, Error>
    requires ScopeValues(s, context).Some?
  {
    if put.expected.Some? then
      if before.Some? && RecordVersion in before.value && before.value[RecordVersion] == Number(put.expected.value)
      then Ok(ChangedRow(s, before.value, put.data, now)) else Err(ConditionFailed)
    else
      match put.mode
      case IfAbsent => if before.Some? then Err(UniqueViolation) else Ok(NewRow(s, context, put.data, now))
      case Update => if before.Some? then Ok(PutRow(s, before.value, put.data, now)) else Err(ConditionFailed)
      case Upsert => Ok(if before.Some? then PutRow(s, before.value, put.data, now) else NewRow(s, context, put.data, now))
  }

  function RecordAt(t: Table, key: seq<Cell>): Option<Row> { if key in t then Some(t[key]) else None }

  /** The table after a put: one record replaced or added, or an error. */
  function Reference(s: Settings, t: Table, context: Context, put: Put, now: int): Result<Table, Error>
    requires ScopeValues(s, context).Some?
  {
    var key := KeyOf(s, context, put.data);
    match RecordAfter(s, RecordAt(t, key), context, put, now)
    case Ok(row) => Ok(t[key := row])
    case Err(e) => Err(e)
  }

  // --- Lists of assignments and values ---

  lemma {:induction false} SourceIs(set_: seq<Assign>, i: nat)
    requires i < |set_| && forall j, k :: 0 <= j < k < |set_| ==> set_[j].column != set_[k].column
    ensures SourceFor(set_, set_[i].column) == Some(set_[i].source)
  {
    if i < |set_| - 1 { SourceIs(set_[..|set_| - 1], i); }
  }

  lemma {:induction false} SourceNone(set_: seq<Assign>, c: Column)
    requires forall i :: 0 <= i < |set_| ==> set_[i].column != c
    ensures SourceFor(set_, c) == None
  {
    if set_ != [] { SourceNone(set_[..|set_| - 1], c); }
  }

  lemma SourceBump(set_: seq<Assign>, c: Column)
    ensures SourceFor(set_ + BUMP, c)
            == if c == UpdatedAt then Some(Clock) else if c == RecordVersion then Some(OwnPlusOne) else SourceFor(set_, c)
  {
    var all := set_ + BUMP;
    var n := |set_|;
    assert all[n + 1] == Assign(UpdatedAt, Clock) && all[n] == Assign(RecordVersion, OwnPlusOne);
    assert all[..n + 1][..n] == set_;
    assert SourceFor(all[..n + 1], c) == if c == RecordVersion then Some(OwnPlusOne) else SourceFor(set_, c);
  }

  lemma {:induction false} GivenIs(columns: seq<Column>, values: seq<Cell>, i: nat)
    requires i < |columns| == |values| && NoRepeats(columns)
    ensures Given(columns, values, columns[i]) == Some(values[i])
  {
    if i < |columns| - 1 { GivenIs(columns[..|columns| - 1], values[..|values| - 1], i); }
  }

  lemma {:induction false} GivenNone(columns: seq<Column>, values: seq<Cell>, c: Column)
    requires |columns| == |values| && c !in columns
    ensures Given(columns, values, c) == None
  {
    if columns != [] { GivenNone(columns[..|columns| - 1], values[..|values| - 1], c); }
  }

  // --- Fields and data ---

  lemma SameField(s: Settings, f: FieldLayout, g: FieldLayout)
    requires ValidSettings(s) && f in s.fields && g in s.fields && (f.name == g.name || f.column == g.column)
    ensures f == g
  {
    var i :| 0 <= i < |s.fields| && s.fields[i] == f;
    var j :| 0 <= j < |s.fields| && s.fields[j] == g;
  }

  lemma ColumnOfField(s: Settings, f: FieldLayout)
    requires ValidSettings(s) && f in s.fields
    ensures AtColumn(s.fields, f.column) == Some(f) && Named(s.fields, f.name) == Some(f)
  {
    SameField(s, f, AtColumn(s.fields, f.column).value);
    SameField(s, f, Named(s.fields, f.name).value);
  }

  lemma {:induction false} GetIs(data: seq<(string, Cell)>, i: nat)
    requires Dictionary(data) && i < |data|
    ensures Get(data, data[i].0) == data[i].1
  {
    if i > 0 {
      assert data[0].0 != data[i].0 && data[1..][i - 1] == data[i];
      GetIs(data[1..], i - 1);
    }
  }

  /** Identity values of accepted data are never NULL. */
  lemma IdentityNotNull(s: Settings, data: seq<(string, Cell)>, name: string)
    requires ValidSettings(s) && GoodData(s, data) && Dictionary(data) && name in s.identity
    ensures Get(data, name) != Null
  {
    var f := Named(s.fields, name).value;
    var i :| 0 <= i < |s.fields| && s.fields[i] == f;
    assert Has(data, s.fields[i].name);
    var j :| 0 <= j < |data| && data[j].0 == name;
    GetIs(data, j);
  }

  lemma KeyNotNull(s: Settings, context: Context, data: seq<(string, Cell)>)
    requires ValidSettings(s) && GoodData(s, data) && Dictionary(data) && ScopeValues(s, context).Some?
    ensures forall i :: 0 <= i < |KeyOf(s, context, data)| ==> KeyOf(s, context, data)[i] != Null
    ensures |KeyOf(s, context, data)| == |KeyColumns(s)|
  {
    var key, scope := KeyOf(s, context, data), ScopeValues(s, context).value;
    forall i | 0 <= i < |key| ensures key[i] != Null {
      if i < |scope| {
        assert scope[i] in scope;
      } else {
        assert s.identity[i - |scope|] in s.identity;
        IdentityNotNull(s, data, s.identity[i - |scope|]);
      }
    }
  }

  // --- UPDATE finds exactly the scoped identity ---

  lemma MatchesOnlyTheKey(s: Settings, t: Table, k: seq<Cell>, key: seq<Cell>, version: Option<int>)
    requires ValidSettings(s) && Indexed(s, t) && k in t && |key| == |KeyColumns(s)|
    requires forall i :: 0 <= i < |key| ==> key[i] != Null
    ensures Matches(t[k], KeyColumns(s), key, version) <==>
              k == key && (version.Some? ==> t[k][RecordVersion] == Number(version.value))
  {
    assert Filed(s, k, t[k]);
    if Matches(t[k], KeyColumns(s), key, version) {
      forall i | 0 <= i < |k| ensures k[i] == key[i] { assert t[k][KeyColumns(s)[i]] == k[i]; }
    }
  }

  /** The key is there, with the version if one is expected. */
  predicate Found(t: Table, key: seq<Cell>, version: Option<int>) {
    key in t && (version.Some? ==> RecordVersion in t[key] && t[key][RecordVersion] == Number(version.value))
  }

  /** An UPDATE on the key replaces one row, or none. */
  lemma UpdateIsOneRow(s: Settings, t: Table, set_: seq<Assign>, key: seq<Cell>, version: Option<int>, now: int)
    requires ValidSettings(s) && Indexed(s, t) && |key| == |KeyColumns(s)|
    requires forall i :: 0 <= i < |key| ==> key[i] != Null
    ensures Execute(s, t, Command(UpdateRows(set_, KeyColumns(s), key, version), true), now)
            == if Found(t, key, version) then Ok(t[key := Assigned(t[key], map[], set_, now)]) else Err(ConditionFailed)
  {
    forall k | k in t ensures Matches(t[k], KeyColumns(s), key, version) <==> k == key && Found(t, key, version) {
      assert Filed(s, k, t[k]);
      MatchesOnlyTheKey(s, t, k, key, version);
    }
    if Found(t, key, version) { OneUpdated(t, set_, KeyColumns(s), key, version, now, key); }
  }

  lemma OneUpdated(t: Table, set_: seq<Assign>, columns: seq<Column>, values: seq<Cell>, version: Option<int>, now: int, key: seq<Cell>)
    requires |columns| == |values| && key in t && forall k :: k in t ==> (Matches(t[k], columns, values, version) <==> k == key)
    ensures Updated(t, set_, columns, values, version, now) == t[key := Assigned(t[key], map[], set_, now)]
  {
  }

  // --- The new values of each statement ---

  lemma MutableColumns(s: Settings)
    requires ValidSettings(s)
    ensures DistinctColumns(MutableFields(s))
  {
    DistinctAmong(s.fields, s.identity);
  }

  predicate DistinctColumns(fields: seq<FieldLayout>) { forall i, j :: 0 <= i < j < |fields| ==> fields[i].column != fields[j].column }

  lemma {:induction false} DistinctAmong(fields: seq<FieldLayout>, identity: seq<string>)
    requires DistinctColumns(fields)
    ensures DistinctColumns(MutableAmong(fields, identity))
  {
    if fields != [] {
      var n := |fields| - 1;
      DistinctAmong(fields[..n], identity);
      var before, ms := MutableAmong(fields[..n], identity), MutableAmong(fields, identity);
      forall i | 0 <= i < |before| ensures before[i].column != fields[n].column {
        assert before[i] in fields[..n];
        var j :| 0 <= j < n && fields[..n][j] == before[i];
      }
      assert ms == before || ms == before + [fields[n]];
    }
  }

  /** What the mutable-field assignments do to a column. */
  lemma SourceOfMutable(s: Settings, source: FieldLayout -> Source, c: Column)
    requires ValidSettings(s)
    ensures SourceFor(AssignAll(MutableFields(s), source), c)
            == if c.OfField? && AtColumn(s.fields, c.column).Some? && IsMutable(s, AtColumn(s.fields, c.column).value)
               then Some(source(AtColumn(s.fields, c.column).value)) else None
  {
    var ms := MutableFields(s);
    var set_ := AssignAll(ms, source);
    MutableColumns(s);
    if c.OfField? && AtColumn(s.fields, c.column).Some? && IsMutable(s, AtColumn(s.fields, c.column).value) {
      var f := AtColumn(s.fields, c.column).value;
      assert f in ms;
      var i :| 0 <= i < |ms| && ms[i] == f;
      SourceIs(set_, i);
    } else {
      forall i | 0 <= i < |set_| ensures set_[i].column != c {
        assert ms[i] in ms;
        ColumnOfField(s, ms[i]);
      }
      SourceNone(set_, c);
    }
  }

  /** With the bump, or touching `__updated_at` when nothing is mutable. */
  lemma SourceOfPut(s: Settings, source: FieldLayout -> Source, c: Column)
    requires ValidSettings(s)
    ensures var set_ := WithBump(s, AssignAll(MutableFields(s), source));
      SourceFor(set_, c) ==
        if MutableFields(s) == [] then (if c == UpdatedAt then Some(Own) else None)
        else if c == UpdatedAt then Some(Clock)
        else if c == RecordVersion then Some(OwnPlusOne)
        else if c.OfField? && AtColumn(s.fields, c.column).Some? && IsMutable(s, AtColumn(s.fields, c.column).value)
             then Some(source(AtColumn(s.fields, c.column).value))
        else None
  {
    if MutableFields(s) == [] {
      assert TOUCH[..0] == [];
    } else {
      SourceBump(AssignAll(MutableFields(s), source), c);
      SourceOfMutable(s, source, c);
    }
  }

  lemma NothingMutable(s: Settings, f: FieldLayout)
    requires f in s.fields && MutableFields(s) == []
    ensures !IsMutable(s, f)
  {
    assert f !in MutableFields(s);
  }

  lemma AssignedBy(own: Cell, excluded: Row, set_: seq<Assign>, now: int, c: Column, source: Option<Source>)
    requires SourceFor(set_, c) == source
    ensures AssignedCell(own, excluded, set_, now, c)
            == if source.None? then own else Evaluate(source.value, own, if c in excluded then excluded[c] else Null, now)
  {
  }

  /** A field's column after the assignments of all mutable fields. */
  lemma FieldAssigned(s: Settings, source: FieldLayout -> Source, own: Cell, excluded: Row, now: int, column: string, v: Cell)
    requires ValidSettings(s)
    requires var f := AtColumn(s.fields, column); var c := OfField(column);
      f.Some? && IsMutable(s, f.value) ==> Evaluate(source(f.value), own, if c in excluded then excluded[c] else Null, now) == v
    ensures var f := AtColumn(s.fields, column);
      AssignedCell(own, excluded, WithBump(s, AssignAll(MutableFields(s), source)), now, OfField(column))
      == if f.Some? && IsMutable(s, f.value) then v else own
  {
    var f := AtColumn(s.fields, column);
    if f.Some? && MutableFields(s) == [] { NothingMutable(s, f.value); }
    SourceOfPut(s, source, OfField(column));
    AssignedBy(own, excluded, WithBump(s, AssignAll(MutableFields(s), source)), now, OfField(column),
               if f.Some? && IsMutable(s, f.value) then Some(source(f.value)) else None);
  }

  /** Every other column: the version and the time move exactly when some field is mutable. */
  lemma SystemAssigned(s: Settings, source: FieldLayout -> Source, own: Cell, excluded: Row, data: seq<(string, Cell)>, now: int, c: Column)
    requires ValidSettings(s) && !c.OfField? && (c == RecordVersion ==> own.Number?)
    ensures AssignedCell(own, excluded, WithBump(s, AssignAll(MutableFields(s), source)), now, c) == PutCell(s, own, data, now, c)
  {
    var none := MutableFields(s) == [];
    SourceOfPut(s, source, c);
    AssignedBy(own, excluded, WithBump(s, AssignAll(MutableFields(s), source)), now, c,
               if c == UpdatedAt then Some(if none then Own else Clock) else if c == RecordVersion && !none then Some(OwnPlusOne) else None);
  }

  lemma UpdateCell(s: Settings, own: Cell, data: seq<(string, Cell)>, now: int, c: Column)
    requires ValidSettings(s) && (c == RecordVersion ==> own.Number?)
    ensures AssignedCell(own, map[], WithBump(s, AssignAll(MutableFields(s), FromData(data))), now, c) == PutCell(s, own, data, now, c)
  {
    if c.OfField? {
      var f := AtColumn(s.fields, c.column);
      FieldAssigned(s, FromData(data), own, map[], now, c.column, if f.Some? then Get(data, f.value.name) else Null);
    } else {
      SystemAssigned(s, FromData(data), own, map[], data, now, c);
    }
  }

  /** The unconditional update computes the reference row from the data. */
  lemma UpdateSetsPutRow(s: Settings, row: Row, data: seq<(string, Cell)>, now: int)
    requires ValidSettings(s) && GoodRow(s, row)
    ensures Assigned(row, map[], WithBump(s, AssignAll(MutableFields(s), FromData(data))), now) == PutRow(s, row, data, now)
  {
    forall c | c in row
      ensures AssignedCell(row[c], map[], WithBump(s, AssignAll(MutableFields(s), FromData(data))), now, c) == PutCell(s, row[c], data, now, c)
    {
      UpdateCell(s, row[c], data, now, c);
    }
  }

  lemma ConflictCell(s: Settings, own: Cell, excluded: Row, data: seq<(string, Cell)>, now: int, c: Column)
    requires ValidSettings(s) && (c == RecordVersion ==> own.Number?)
    requires c.OfField? && AtColumn(s.fields, c.column).Some? ==> c in excluded && excluded[c] == Get(data, AtColumn(s.fields, c.column).value.name)
    ensures AssignedCell(own, excluded, WithBump(s, AssignAll(MutableFields(s), FromExcluded())), now, c) == PutCell(s, own, data, now, c)
  {
    if c.OfField? {
      var f := AtColumn(s.fields, c.column);
      FieldAssigned(s, FromExcluded(), own, excluded, now, c.column, if f.Some? then Get(data, f.value.name) else Null);
    } else {
      SystemAssigned(s, FromExcluded(), own, excluded, data, now, c);
    }
  }

  /** ON CONFLICT computes the same row from the proposed one. */
  lemma ConflictSetsPutRow(s: Settings, row: Row, excluded: Row, data: seq<(string, Cell)>, now: int)
    requires ValidSettings(s) && GoodRow(s, row)
    requires forall f :: f in s.fields ==> OfField(f.column) in excluded && excluded[OfField(f.column)] == Get(data, f.name)
    ensures Assigned(row, excluded, WithBump(s, AssignAll(MutableFields(s), FromExcluded())), now) == PutRow(s, row, data, now)
  {
    forall c | c in row
      ensures AssignedCell(row[c], excluded, WithBump(s, AssignAll(MutableFields(s), FromExcluded())), now, c) == PutCell(s, row[c], data, now, c)
    {
      ConflictCell(s, row[c], excluded, data, now, c);
    }
  }

  lemma {:induction false} ChangesAre(s: Settings, data: seq<(string, Cell)>)
    ensures var cs := Changes(s, data);
      && (forall i :: 0 <= i < |cs| ==> cs[i] in data && cs[i].0 !in s.identity)
      && (forall d :: d in data && d.0 !in s.identity ==> d in cs)
  {
    if data != [] {
      var n := |data| - 1;
      ChangesAre(s, data[..n]);
      assert data == data[..n] + [data[n]];
    }
  }

  lemma {:induction false} ChangesAreDistinct(s: Settings, data: seq<(string, Cell)>)
    requires Dictionary(data)
    ensures Dictionary(Changes(s, data))
  {
    if data != [] {
      var n := |data| - 1;
      var before := Changes(s, data[..n]);
      ChangesAreDistinct(s, data[..n]);
      ChangesAre(s, data[..n]);
      forall i | 0 <= i < |before| ensures before[i].0 != data[n].0 {
        assert before[i] in data[..n];
        var j :| 0 <= j < n && data[..n][j] == before[i];
      }
    }
  }

  /** What the assignments of a version-checked put do to a column. */
  lemma SourceOfChange(s: Settings, data: seq<(string, Cell)>, c: Column)
    requires ValidSettings(s) && Dictionary(data) && GoodChanges(s, Changes(s, data))
    ensures SourceFor(ChangeSet(s, Changes(s, data)), c)
            == if c.OfField? && AtColumn(s.fields, c.column).Some? && AtColumn(s.fields, c.column).value.name !in s.identity
                  && Has(data, AtColumn(s.fields, c.column).value.name)
               then Some(Bound(Get(data, AtColumn(s.fields, c.column).value.name))) else None
  {
    var cs := Changes(s, data);
    var set_ := ChangeSet(s, cs);
    ChangesAre(s, data);
    ChangesAreDistinct(s, data);
    ChangeColumns(s, cs);
    if c.OfField? && AtColumn(s.fields, c.column).Some? && AtColumn(s.fields, c.column).value.name !in s.identity
       && Has(data, AtColumn(s.fields, c.column).value.name) {
      var f := AtColumn(s.fields, c.column).value;
      var j :| 0 <= j < |data| && data[j].0 == f.name;
      GetIs(data, j);
      assert data[j] in data;
      var i :| 0 <= i < |cs| && cs[i] == data[j];
      ColumnOfField(s, f);
      SourceIs(set_, i);
    } else {
      forall i | 0 <= i < |set_| ensures set_[i].column != c {
        var f := Named(s.fields, cs[i].0).value;
        ColumnOfField(s, f);
        assert cs[i] in data;
        var j :| 0 <= j < |data| && data[j] == cs[i];
        assert Has(data, f.name);
      }
      SourceNone(set_, c);
    }
  }

  lemma ChangeColumns(s: Settings, cs: seq<(string, Cell)>)
    requires ValidSettings(s) && Dictionary(cs) && AllKnown(s, cs)
    ensures var set_ := ChangeSet(s, cs); forall i, j :: 0 <= i < j < |set_| ==> set_[i].column != set_[j].column
  {
    forall i, j | 0 <= i < j < |cs| ensures ChangeSet(s, cs)[i].column != ChangeSet(s, cs)[j].column {
      var f, g := Named(s.fields, cs[i].0).value, Named(s.fields, cs[j].0).value;
      assert cs[i].0 != cs[j].0;
      if f.column == g.column { SameField(s, f, g); }
    }
  }

  lemma CheckedCell(s: Settings, own: Cell, data: seq<(string, Cell)>, now: int, c: Column)
    requires ValidSettings(s) && Dictionary(data) && GoodChanges(s, Changes(s, data)) && (c == RecordVersion ==> own.Number?)
    ensures AssignedCell(own, map[], ChangeSet(s, Changes(s, data)) + BUMP, now, c) == ChangedCell(s, own, data, now, c)
  {
    SourceBump(ChangeSet(s, Changes(s, data)), c);
    SourceOfChange(s, data, c);
  }

  lemma CheckedSetsChangedRow(s: Settings, row: Row, data: seq<(string, Cell)>, now: int)
    requires ValidSettings(s) && GoodRow(s, row) && Dictionary(data) && GoodChanges(s, Changes(s, data))
    ensures Assigned(row, map[], ChangeSet(s, Changes(s, data)) + BUMP, now) == ChangedRow(s, row, data, now)
  {
    forall c | c in row
      ensures AssignedCell(row[c], map[], ChangeSet(s, Changes(s, data)) + BUMP, now, c) == ChangedCell(s, row[c], data, now, c)
    {
      CheckedCell(s, row[c], data, now, c);
    }
  }

  // --- INSERT ---

  lemma InsertColumnsDistinct(s: Settings, data: seq<(string, Cell)>)
    requires ValidSettings(s) && Dictionary(data) && AllKnown(s, data)
    ensures NoRepeats(ScopeColumns(s) + DataColumns(s, data))
  {
    var cs, n := ScopeColumns(s) + DataColumns(s, data), |ScopeColumns(s)|;
    forall i, j | 0 <= i < j < |cs| ensures cs[i] != cs[j] {
      if i >= n {
        var f, g := Named(s.fields, data[i - n].0).value, Named(s.fields, data[j - n].0).value;
        assert data[i - n].0 != data[j - n].0;
        if f.column == g.column { SameField(s, f, g); }
      } else if j < n && i > 0 {
        assert s.scopeKeys[i - 1] != s.scopeKeys[j - 1];
      }
    }
  }

  lemma FieldNotGiven(s: Settings, data: seq<(string, Cell)>, f: FieldLayout)
    requires ValidSettings(s) && AllKnown(s, data) && f in s.fields && !Has(data, f.name)
    ensures OfField(f.column) !in ScopeColumns(s) + DataColumns(s, data)
  {
    forall i | 0 <= i < |data| ensures DataColumns(s, data)[i] != OfField(f.column) {
      var g := Named(s.fields, data[i].0).value;
      assert data[i].0 == g.name;
      if g.column == f.column { SameField(s, f, g); }
    }
  }

  lemma ColumnAt(columns: seq<Column>, values: seq<Cell>, i: nat, c: Column, v: Cell)
    requires NoRepeats(columns) && i < |columns| == |values| && columns[i] == c && values[i] == v
    ensures Given(columns, values, c) == Some(v)
  {
    GivenIs(columns, values, i);
  }

  lemma FieldGiven(s: Settings, scope: seq<Cell>, data: seq<(string, Cell)>, f: FieldLayout, j: nat)
    requires ValidSettings(s) && Dictionary(data) && AllKnown(s, data) && |scope| == |ScopeColumns(s)|
    requires f in s.fields && j < |data| && data[j].0 == f.name
    ensures Given(ScopeColumns(s) + DataColumns(s, data), scope + DataValues(data), OfField(f.column)) == Some(Get(data, f.name))
  {
    InsertColumnsDistinct(s, data);
    ColumnOfField(s, f);
    GetIs(data, j);
    ColumnAt(ScopeColumns(s) + DataColumns(s, data), scope + DataValues(data), |scope| + j, OfField(f.column), Get(data, f.name));
  }

  /** The value the INSERT gives a field's column. */
  lemma GivenField(s: Settings, context: Context, data: seq<(string, Cell)>, f: FieldLayout, now: int)
    requires ValidSettings(s) && Dictionary(data) && AllKnown(s, data) && ScopeValues(s, context).Some? && f in s.fields
    ensures InsertedCell(ScopeColumns(s) + DataColumns(s, data), ScopeValues(s, context).value + DataValues(data), now, OfField(f.column))
            == Get(data, f.name)
  {
    if Has(data, f.name) {
      var j :| 0 <= j < |data| && data[j].0 == f.name;
      FieldGiven(s, ScopeValues(s, context).value, data, f, j);
    } else {
      FieldNotGiven(s, data, f);
      GivenNone(ScopeColumns(s) + DataColumns(s, data), ScopeValues(s, context).value + DataValues(data), OfField(f.column));
      assert Get(data, f.name) == Null;
    }
  }

  lemma GivenScope(s: Settings, context: Context, data: seq<(string, Cell)>, i: nat)
    requires ValidSettings(s) && Dictionary(data) && AllKnown(s, data) && ScopeValues(s, context).Some? && i < |ScopeColumns(s)|
    ensures Given(ScopeColumns(s) + DataColumns(s, data), ScopeValues(s, context).value + DataValues(data), ScopeColumns(s)[i])
            == Some(ScopeValues(s, context).value[i])
  {
    InsertColumnsDistinct(s, data);
    GivenIs(ScopeColumns(s) + DataColumns(s, data), ScopeValues(s, context).value + DataValues(data), i);
  }

  lemma GivenSystem(s: Settings, context: Context, data: seq<(string, Cell)>, c: Column)
    requires ValidSettings(s) && AllKnown(s, data) && ScopeValues(s, context).Some? && c in {RecordVersion, CreatedAt, UpdatedAt}
    ensures Given(ScopeColumns(s) + DataColumns(s, data), ScopeValues(s, context).value + DataValues(data), c) == None
  {
    GivenNone(ScopeColumns(s) + DataColumns(s, data), ScopeValues(s, context).value + DataValues(data), c);
  }

  lemma InsertedScope(s: Settings, context: Context, data: seq<(string, Cell)>, now: int, key: string)
    requires ValidSettings(s) && Dictionary(data) && AllKnown(s, data) && ScopeValues(s, context).Some? && key in s.scopeKeys
    ensures InsertedCell(ScopeColumns(s) + DataColumns(s, data), ScopeValues(s, context).value + DataValues(data), now, ScopeOf(key))
            == Text(context.scope[key])
  {
    var i :| 0 <= i < |s.scopeKeys| && s.scopeKeys[i] == key;
    GivenScope(s, context, data, i + 1);
    assert ScopeColumns(s)[i + 1] == ScopeOf(key);
  }

  lemma InsertedIsNew(s: Settings, context: Context, data: seq<(string, Cell)>, now: int, c: Column)
    requires ValidSettings(s) && Dictionary(data) && AllKnown(s, data) && ScopeValues(s, context).Some? && c in AllColumns(s)
    ensures InsertedCell(ScopeColumns(s) + DataColumns(s, data), ScopeValues(s, context).value + DataValues(data), now, c)
            == NewCell(s, context, data, now, c)
  {
    match c
    case Tenant => GivenScope(s, context, data, 0);
    case ScopeOf(key) => InsertedScope(s, context, data, now, key);
    case OfField(column) =>
      var f :| f in s.fields && f.column == column;
      ColumnOfField(s, f);
      GivenField(s, context, data, f, now);
    case _ => GivenSystem(s, context, data, c);
  }

  lemma InsertMakesNewRow(s: Settings, context: Context, data: seq<(string, Cell)>, now: int)
    requires ValidSettings(s) && Dictionary(data) && AllKnown(s, data) && ScopeValues(s, context).Some?
    ensures Inserted(s, ScopeColumns(s) + DataColumns(s, data), ScopeValues(s, context).value + DataValues(data), now)
            == NewRow(s, context, data, now)
  {
    forall c | c in AllColumns(s)
      ensures InsertedCell(ScopeColumns(s) + DataColumns(s, data), ScopeValues(s, context).value + DataValues(data), now, c)
              == NewCell(s, context, data, now, c)
    {
      InsertedIsNew(s, context, data, now, c);
    }
  }

  /** A new record is filed under its key. */
  lemma NewRowFiled(s: Settings, context: Context, data: seq<(string, Cell)>, now: int)
    requires ValidSettings(s) && ScopeValues(s, context).Some?
    ensures Filed(s, KeyOf(s, context, data), NewRow(s, context, data, now))
  {
    var key, row, cs := KeyOf(s, context, data), NewRow(s, context, data, now), KeyColumns(s);
    forall i | 0 <= i < |key| ensures cs[i] in row && row[cs[i]] == key[i] {
      assert cs[i] in cs;
      KeyColumnsExist(s, cs[i]);
      NewKeyCell(s, context, data, now, i);
    }
  }

  lemma NewKeyCell(s: Settings, context: Context, data: seq<(string, Cell)>, now: int, i: nat)
    requires ValidSettings(s) && ScopeValues(s, context).Some? && i < |KeyColumns(s)|
    ensures i < |KeyOf(s, context, data)| && NewCell(s, context, data, now, KeyColumns(s)[i]) == KeyOf(s, context, data)[i]
  {
    var n := |ScopeColumns(s)|;
    if i >= n {
      assert s.identity[i - n] in s.identity && KeyColumns(s)[i] == IdentityColumns(s)[i - n];
      ColumnOfField(s, Named(s.fields, s.identity[i - n]).value);
    } else if i > 0 {
      assert s.scopeKeys[i - 1] in s.scopeKeys && s.scopeKeys[i - 1] in context.scope;
    }
  }

  lemma FiledUnder(s: Settings, key: seq<Cell>, row: Row)
    requires ValidSettings(s) && Filed(s, key, row) && forall c :: c in KeyColumns(s) ==> c in row
    ensures Cells(row, KeyColumns(s)) == key
  {
  }

  /** The INSERT of a put: a new record, a violation, or the conflict action. */
  lemma InsertIsKeyed(s: Settings, t: Table, context: Context, data: seq<(string, Cell)>, onConflict: Option<seq<Assign>>, now: int)
    requires ValidSettings(s) && Dictionary(data) && AllKnown(s, data) && ScopeValues(s, context).Some?
    ensures var key, row := KeyOf(s, context, data), NewRow(s, context, data, now);
      Execute(s, t, Command(Insert(ScopeColumns(s) + DataColumns(s, data), ScopeValues(s, context).value + DataValues(data), onConflict), false), now)
      == if key !in t then Ok(t[key := row])
         else if onConflict.None? then Err(UniqueViolation)
         else Ok(t[key := Assigned(t[key], row, onConflict.value, now)])
  {
    InsertMakesNewRow(s, context, data, now);
    NewRowFiled(s, context, data, now);
    InsertedHasKey(s, ScopeColumns(s) + DataColumns(s, data), ScopeValues(s, context).value + DataValues(data), now);
    FiledUnder(s, KeyOf(s, context, data), NewRow(s, context, data, now));
  }

  // --- The theorem ---

  /** Every put that compiles, executed on any table, is the reference operation. */
  lemma PutRefines(s: Settings, t: Table, context: Context, put: Put, now: int)
    requires ValidSettings(s) && Indexed(s, t) && Dictionary(put.data) && Accepted(s, context, put)
    ensures Execute(s, t, Compiled(s, context, put), now) == Reference(s, t, context, put, now)
  {
    var key := KeyOf(s, context, put.data);
    KeyNotNull(s, context, put.data);
    assert key in t ==> Filed(s, key, t[key]);
    if put.expected.Some? {
      UpdateIsOneRow(s, t, ChangeSet(s, Changes(s, put.data)) + BUMP, key, put.expected, now);
      if key in t { CheckedSetsChangedRow(s, t[key], put.data, now); }
    } else if put.mode == Update {
      UpdateIsOneRow(s, t, WithBump(s, AssignAll(MutableFields(s), FromData(put.data))), key, None, now);
      if key in t { UpdateSetsPutRow(s, t[key], put.data, now); }
    } else {
      InsertRefines(s, t, context, put, now);
    }
  }

  lemma InsertRefines(s: Settings, t: Table, context: Context, put: Put, now: int)
    requires ValidSettings(s) && Indexed(s, t) && Dictionary(put.data) && Accepted(s, context, put)
    requires put.expected.None? && put.mode != Update
    ensures Execute(s, t, Compiled(s, context, put), now) == Reference(s, t, context, put, now)
  {
    var key := KeyOf(s, context, put.data);
    var conflict := if put.mode == Upsert then Some(WithBump(s, AssignAll(MutableFields(s), FromExcluded()))) else None;
    InsertIsKeyed(s, t, context, put.data, conflict, now);
    if key in t {
      assert Filed(s, key, t[key]);
      NewRowHasData(s, context, put.data, now);
      ConflictSetsPutRow(s, t[key], NewRow(s, context, put.data, now), put.data, now);
    }
  }

  lemma NewRowHasData(s: Settings, context: Context, data: seq<(string, Cell)>, now: int)
    requires ValidSettings(s) && ScopeValues(s, context).Some?
    ensures var row := NewRow(s, context, data, now);
      forall f :: f in s.fields ==> OfField(f.column) in row && row[OfField(f.column)] == Get(data, f.name)
  {
    forall f | f in s.fields
      ensures OfField(f.column) in NewRow(s, context, data, now) && NewCell(s, context, data, now, OfField(f.column)) == Get(data, f.name)
    {
      ColumnOfField(s, f);
    }
  }

  // --- Consequences ---

  /** An unconditional upsert is if_absent on an absent identity and update on a present one. */
  lemma UpsertIsInsertOrUpdate(s: Settings, t: Table, context: Context, data: seq<(string, Cell)>, now: int)
    requires ValidSettings(s) && Indexed(s, t) && Dictionary(data) && Accepted(s, context, Put(Upsert, None, data))
    ensures Accepted(s, context, Put(IfAbsent, None, data)) && Accepted(s, context, Put(Update, None, data))
    ensures Execute(s, t, Compiled(s, context, Put(Upsert, None, data)), now)
            == Execute(s, t, Compiled(s, context, Put(if KeyOf(s, context, data) in t then Update else IfAbsent, None, data)), now)
  {
    PutRefines(s, t, context, Put(Upsert, None, data), now);
    PutRefines(s, t, context, Put(IfAbsent, None, data), now);
    PutRefines(s, t, context, Put(Update, None, data), now);
  }

  /** Neither update touches a key column. */
  lemma UpdatesKeepKeys(s: Settings, own: Cell, data: seq<(string, Cell)>, now: int, i: nat)
    requires ValidSettings(s) && i < |KeyColumns(s)|
    ensures PutCell(s, own, data, now, KeyColumns(s)[i]) == own && ChangedCell(s, own, data, now, KeyColumns(s)[i]) == own
  {
    var n := |ScopeColumns(s)|;
    if i >= n {
      assert s.identity[i - n] in s.identity && KeyColumns(s)[i] == IdentityColumns(s)[i - n];
      ColumnOfField(s, Named(s.fields, s.identity[i - n]).value);
    }
  }

  lemma UpdatedStaysFiled(s: Settings, key: seq<Cell>, row: Row, data: seq<(string, Cell)>, now: int)
    requires ValidSettings(s) && Filed(s, key, row)
    ensures Filed(s, key, PutRow(s, row, data, now)) && Filed(s, key, ChangedRow(s, row, data, now))
  {
    forall i | 0 <= i < |key|
      ensures PutRow(s, row, data, now)[KeyColumns(s)[i]] == key[i] && ChangedRow(s, row, data, now)[KeyColumns(s)[i]] == key[i]
    {
      UpdatesKeepKeys(s, row[KeyColumns(s)[i]], data, now, i);
    }
  }

  /** The tables agree on every key but one. */
  ghost predicate OnlyAt(t: Table, u: Table, key: seq<Cell>) {
    && key in u
    && (forall k :: k in t ==> k in u && (k != key ==> u[k] == t[k]))
    && (forall k :: k in u && k != key ==> k in t)
  }

  /** A put keeps every record filed under its key and leaves every other scoped identity alone. */
  lemma PutKeepsOthers(s: Settings, t: Table, context: Context, put: Put, now: int)
    requires ValidSettings(s) && Indexed(s, t) && Dictionary(put.data) && Accepted(s, context, put)
    ensures var r := Execute(s, t, Compiled(s, context, put), now);
      r.Ok? ==> Indexed(s, r.value) && OnlyAt(t, r.value, KeyOf(s, context, put.data))
  {
    PutRefines(s, t, context, put, now);
    ReferenceKeepsOthers(s, t, context, put, now);
  }

  lemma ReplacedAt(s: Settings, t: Table, key: seq<Cell>, row: Row)
    requires ValidSettings(s) && Indexed(s, t) && Filed(s, key, row)
    ensures Indexed(s, t[key := row]) && OnlyAt(t, t[key := row], key)
  {
    var u := t[key := row];
    forall k | k in u ensures Filed(s, k, u[k]) {
      if k != key { assert Filed(s, k, t[k]); }
    }
  }

  /** A put makes a new record or updates the one there is. */
  lemma RecordIsNewOrUpdated(s: Settings, before: Option<Row>, context: Context, put: Put, now: int)
    requires ScopeValues(s, context).Some?
    ensures var r := RecordAfter(s, before, context, put, now);
      r.Ok? ==>
        || r.value == NewRow(s, context, put.data, now)
        || (before.Some? && r.value == PutRow(s, before.value, put.data, now))
        || (before.Some? && r.value == ChangedRow(s, before.value, put.data, now))
  {
  }

  lemma FiledEitherWay(s: Settings, key: seq<Cell>, row: Row, new_: Row, put: Row, changed: Row)
    requires ValidSettings(s) && Filed(s, key, new_) && Filed(s, key, put) && Filed(s, key, changed)
    requires row == new_ || row == put || row == changed
    ensures Filed(s, key, row)
  {
  }

  lemma RecordStaysFiled(s: Settings, before: Option<Row>, context: Context, put: Put, now: int)
    requires ValidSettings(s) && ScopeValues(s, context).Some?
    requires before.Some? ==> Filed(s, KeyOf(s, context, put.data), before.value)
    ensures var r := RecordAfter(s, before, context, put, now); r.Ok? ==> Filed(s, KeyOf(s, context, put.data), r.value)
  {
    var key, r, new_ := KeyOf(s, context, put.data), RecordAfter(s, before, context, put, now), NewRow(s, context, put.data, now);
    NewRowFiled(s, context, put.data, now);
    RecordIsNewOrUpdated(s, before, context, put, now);
    if before.Some? && r.Ok? {
      UpdatedStaysFiled(s, key, before.value, put.data, now);
      FiledEitherWay(s, key, r.value, new_, PutRow(s, before.value, put.data, now), ChangedRow(s, before.value, put.data, now));
    }
  }

  lemma ReferenceKeepsOthers(s: Settings, t: Table, context: Context, put: Put, now: int)
    requires ValidSettings(s) && Indexed(s, t) && ScopeValues(s, context).Some?
    ensures var r := Reference(s, t, context, put, now);
      r.Ok? ==> Indexed(s, r.value) && OnlyAt(t, r.value, KeyOf(s, context, put.data))
  {
    var key := KeyOf(s, context, put.data);
    assert key in t ==> Filed(s, key, t[key]);
    RecordStaysFiled(s, RecordAt(t, key), context, put, now);
    var r := RecordAfter(s, RecordAt(t, key), context, put, now);
    if r.Ok? { ReplacedAt(s, t, key, r.value); }
  }

  function VersionOf(row: Row): int { if RecordVersion in row && row[RecordVersion].Number? then row[RecordVersion].n else 0 }

  function VersionAt(t: Table, key: seq<Cell>): int { if key in t then VersionOf(t[key]) else 0 }

  lemma RowVersions(s: Settings, row: Row, data: seq<(string, Cell)>, now: int)
    requires ValidSettings(s) && GoodRow(s, row)
    ensures VersionOf(PutRow(s, row, data, now)) >= VersionOf(row)
    ensures VersionOf(ChangedRow(s, row, data, now)) == VersionOf(row) + 1
  {
  }

  /** No put lowers a record's version; a version-checked one raises it. */
  lemma RecordVersionGrows(s: Settings, before: Option<Row>, context: Context, put: Put, now: int)
    requires ValidSettings(s) && ScopeValues(s, context).Some? && (before.Some? ==> GoodRow(s, before.value))
    ensures var r := RecordAfter(s, before, context, put, now);
      r.Ok? ==>
        && VersionOf(r.value) >= (if before.Some? then VersionOf(before.value) else 0)
        && (put.expected.Some? ==> before.Some? && VersionOf(before.value) == put.expected.value && VersionOf(r.value) == put.expected.value + 1)
  {
    if before.Some? { RowVersions(s, before.value, put.data, now); }
  }

  /** One put by some caller at some time. */
  datatype Call = Call(context: Context, put: Put, now: int)

  /** The table after a call; a call that fails or does not compile changes nothing. */
  function AfterCall(s: Settings, t: Table, c: Call): Table
    requires ValidSettings(s)
  {
    if !Accepted(s, c.context, c.put) then t
    else match Execute(s, t, Compiled(s, c.context, c.put), c.now) case Ok(u) => u case Err(_) => t
  }

  predicate Succeeds(s: Settings, t: Table, c: Call)
    requires ValidSettings(s)
  {
    Accepted(s, c.context, c.put) && Execute(s, t, Compiled(s, c.context, c.put), c.now).Ok?
  }

  function AfterCalls(s: Settings, t: Table, calls: seq<Call>): Table
    requires ValidSettings(s)
    decreases |calls|
  {
    if calls == [] then t else AfterCalls(s, AfterCall(s, t, calls[0]), calls[1..])
  }

  ghost predicate Dictionaries(calls: seq<Call>) { forall i :: 0 <= i < |calls| ==> Dictionary(calls[i].put.data) }

  /** What a call does to the versions: the one put on may rise, all others stay. */
  lemma CallKeepsVersions(s: Settings, t: Table, c: Call, key: seq<Cell>)
    requires ValidSettings(s) && Indexed(s, t) && Dictionary(c.put.data)
    ensures Indexed(s, AfterCall(s, t, c)) && VersionAt(AfterCall(s, t, c), key) >= VersionAt(t, key)
    ensures Succeeds(s, t, c) && c.put.expected.Some? ==>
              var own := KeyOf(s, c.context, c.put.data);
              VersionAt(t, own) == c.put.expected.value && VersionAt(AfterCall(s, t, c), own) == c.put.expected.value + 1
  {
    if Accepted(s, c.context, c.put) {
      var own := KeyOf(s, c.context, c.put.data);
      PutKeepsOthers(s, t, c.context, c.put, c.now);
      PutRefines(s, t, c.context, c.put, c.now);
      assert own in t ==> Filed(s, own, t[own]);
      RecordVersionGrows(s, RecordAt(t, own), c.context, c.put, c.now);
    }
  }

  lemma NothingMutableKeepsRow(s: Settings, row: Row, data: seq<(string, Cell)>, now: int)
    requires MutableFields(s) == []
    ensures PutRow(s, row, data, now) == row
  {
    forall c | c in row ensures PutCell(s, row[c], data, now, c) == row[c] {
      match c
      case OfField(column) =>
        var f := AtColumn(s.fields, column);
        if f.Some? { NothingMutable(s, f.value); }
      case _ =>
    }
  }

  lemma PutRowVersion(s: Settings, row: Row, data: seq<(string, Cell)>, now: int)
    requires ValidSettings(s) && GoodRow(s, row)
    ensures VersionOf(PutRow(s, row, data, now)) == VersionOf(row) + if MutableFields(s) == [] then 0 else 1
  {
  }

  /**
   An unconditional update or upsert of an existing record always succeeds. It changes nothing, not even the version,
   exactly when the layout has no mutable field; otherwise the version rises by one.
   */
  lemma PutOnExistingRecord(s: Settings, t: Table, c: Call)
    requires ValidSettings(s) && Indexed(s, t) && Dictionary(c.put.data) && Accepted(s, c.context, c.put)
    requires c.put.expected.None? && c.put.mode != IfAbsent && KeyOf(s, c.context, c.put.data) in t
    ensures Succeeds(s, t, c)
    ensures AfterCall(s, t, c) == t <==> MutableFields(s) == []
    ensures var own := KeyOf(s, c.context, c.put.data);
      VersionAt(AfterCall(s, t, c), own) == VersionAt(t, own) + if MutableFields(s) == [] then 0 else 1
  {
    var own := KeyOf(s, c.context, c.put.data);
    PutRefines(s, t, c.context, c.put, c.now);
    assert Filed(s, own, t[own]);
    PutRowVersion(s, t[own], c.put.data, c.now);
    if MutableFields(s) == [] { NothingMutableKeepsRow(s, t[own], c.put.data, c.now); }
  }

  lemma {:induction false} CallsKeepVersions(s: Settings, t: Table, calls: seq<Call>, key: seq<Cell>)
    requires ValidSettings(s) && Indexed(s, t) && Dictionaries(calls)
    ensures Indexed(s, AfterCalls(s, t, calls)) && VersionAt(AfterCalls(s, t, calls), key) >= VersionAt(t, key)
    decreases |calls|
  {
    if calls != [] {
      assert Dictionary(calls[0].put.data);
      CallKeepsVersions(s, t, calls[0], key);
      CallsKeepVersions(s, AfterCall(s, t, calls[0]), calls[1..], key);
    }
  }

  /** Of several puts on one record that expect the same version, with any puts between them, at most one succeeds. */
  lemma OneCheckedPutPerVersion(s: Settings, t: Table, first: Call, between: seq<Call>, second: Call)
    requires ValidSettings(s) && Indexed(s, t) && Dictionary(first.put.data) && Dictionaries(between) && Dictionary(second.put.data)
    requires first.put.expected.Some? && second.put.expected == first.put.expected
    requires Succeeds(s, t, first) && Accepted(s, second.context, second.put)
    requires KeyOf(s, first.context, first.put.data) == KeyOf(s, second.context, second.put.data)
    ensures !Succeeds(s, AfterCalls(s, AfterCall(s, t, first), between), second)
  {
    var key, u := KeyOf(s, first.context, first.put.data), AfterCall(s, t, first);
    CallKeepsVersions(s, t, first, key);
    CallsKeepVersions(s, u, between, key);
    CallKeepsVersions(s, AfterCalls(s, u, between), second, key);
  }

  /** Every given field besides the identity is mutable, and there is one. */
  predicate ChangesOnlyMutable(s: Settings, data: seq<(string, Cell)>)
    requires AllKnown(s, data)
  {
    && (forall i :: 0 <= i < |data| && data[i].0 !in s.identity ==> Named(s.fields, data[i].0).value.mutates)
    && (exists i :: 0 <= i < |data| && data[i].0 !in s.identity)
  }

  lemma GoodChangesOnlyMutable(s: Settings, data: seq<(string, Cell)>)
    requires AllKnown(s, data) && GoodChanges(s, Changes(s, data))
    ensures ChangesOnlyMutable(s, data)
  {
    var cs := Changes(s, data);
    ChangesAre(s, data);
    forall i | 0 <= i < |data| && data[i].0 !in s.identity ensures Named(s.fields, data[i].0).value.mutates {
      assert data[i] in data;
      var j :| 0 <= j < |cs| && cs[j] == data[i];
    }
    var x := cs[0];
    assert x in cs;
    var k :| 0 <= k < |data| && data[k] == x;
    assert data[k].0 !in s.identity;
  }

  lemma OnlyMutableIsGoodChanges(s: Settings, data: seq<(string, Cell)>)
    requires AllKnown(s, data) && ChangesOnlyMutable(s, data)
    ensures GoodChanges(s, Changes(s, data))
  {
    var cs := Changes(s, data);
    ChangesAre(s, data);
    var i :| 0 <= i < |data| && data[i].0 !in s.identity;
    assert data[i] in cs;
    forall j | 0 <= j < |cs| ensures Named(s.fields, cs[j].0).Some? && Named(s.fields, cs[j].0).value.mutates {
      assert cs[j] in data;
      var k :| 0 <= k < |data| && data[k] == cs[j];
    }
  }

  /**
   When a version-checked put compiles: exactly when the plain upsert of the same data would, every field given besides
   the identity is mutable, and there is one.
   */
  lemma CheckedPutCompilesIff(s: Settings, context: Context, mode: Mode, expected: int, data: seq<(string, Cell)>)
    requires ValidSettings(s) && mode != IfAbsent
    ensures Accepted(s, context, Put(mode, Some(expected), data))
            <==> Accepted(s, context, Put(Upsert, None, data)) && ChangesOnlyMutable(s, data)
  {
    if GoodData(s, data) {
      if GoodChanges(s, Changes(s, data)) { GoodChangesOnlyMutable(s, data); }
      if ChangesOnlyMutable(s, data) { OnlyMutableIsGoodChanges(s, data); }
    }
  }

  /**
   A put without an expected version compiles exactly when the context has a tenant and exactly the configured scope keys,
   only known fields are given, NULL only for nullable ones, and every field that is not nullable is given.
   */
  lemma PlainPutCompilesIff(s: Settings, context: Context, mode: Mode, data: seq<(string, Cell)>)
    requires ValidSettings(s)
    ensures Accepted(s, context, Put(mode, None, data)) <==>
      && context.tenant.Some? && (forall key :: key in context.scope <==> key in s.scopeKeys)
      && (forall x :: x in data ==> KnownValue(s, x))
      && (forall f :: f in s.fields && !f.nullable ==> Has(data, f.name))
  {
    assert (forall key :: key in context.scope <==> key in s.scopeKeys) <==> context.scope.Keys == (set k | k in s.scopeKeys);
    forall x | x in data ensures KnownValue(s, x) <==> Named(s.fields, x.0).Some? && (x.1 == Null ==> Named(s.fields, x.0).value.nullable) {
      KnownByName(s, x);
    }
    if forall f :: f in s.fields && !f.nullable ==> Has(data, f.name) {
      forall i | 0 <= i < |s.fields| ensures s.fields[i].nullable || Has(data, s.fields[i].name) { assert s.fields[i] in s.fields; }
    }
    if forall x :: x in data ==> KnownValue(s, x) {
      forall i | 0 <= i < |data| ensures Named(s.fields, data[i].0).Some? && (data[i].1 == Null ==> Named(s.fields, data[i].0).value.nullable) {
        assert data[i] in data;
      }
    }
  }

  /** The value is for a field of the layout, which is nullable if it is NULL. */
  ghost predicate KnownValue(s: Settings, x: (string, Cell)) { exists f :: f in s.fields && f.name == x.0 && (x.1 == Null ==> f.nullable) }

  lemma KnownByName(s: Settings, x: (string, Cell))
    requires ValidSettings(s)
    ensures KnownValue(s, x) <==> Named(s.fields, x.0).Some? && (x.1 == Null ==> Named(s.fields, x.0).value.nullable)
  {
    if KnownValue(s, x) {
      var f :| f in s.fields && f.name == x.0 && (x.1 == Null ==> f.nullable);
      SameField(s, f, Named(s.fields, x.0).value);
    }
  }

  /** A layout with a required immutable field outside the identity accepts no version-checked put at all. */
  lemma RequiredImmutableFieldBlocksCheckedPuts(s: Settings, context: Context, put: Put, f: FieldLayout)
    requires ValidSettings(s) && f in s.fields && Fixed(f) && f.name !in s.identity && put.expected.Some?
    ensures !Accepted(s, context, put)
  {
    if GoodData(s, put.data) && put.mode != IfAbsent {
      var i :| 0 <= i < |s.fields| && s.fields[i] == f;
      assert Has(put.data, s.fields[i].name);
      var j :| 0 <= j < |put.data| && put.data[j].0 == f.name;
      ColumnOfField(s, f);
      CheckedPutCompilesIff(s, context, put.mode, put.expected.value, put.data);
    }
  }
}
