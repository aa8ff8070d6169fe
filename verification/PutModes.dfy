/**
 `structured.put`: three modes, with or without an expected version, compiled to different SQL statements. Executed on a
 table under its primary key, each is the same reference operation.
 */
module PutModes {
  import opened Wrappers
  import opened Sequences

  datatype Cell = Null | Text(text: string) | Number(n: int) | Time(t: int)

  /** Physical columns; the settings refuse field columns that collide with the others. */
  datatype Column = Tenant | ScopeOf(key: string) | OfField(column: string) | RecordVersion | CreatedAt | UpdatedAt

  datatype FieldLayout = FieldLayout(name: string, column: string, nullable: bool, mutates: bool)

  datatype Settings = Settings(fields: seq<FieldLayout>, identity: seq<string>, scopeKeys: seq<string>)

  /** What the settings demand of a layout: unique names and columns; identity fields immutable and not nullable. */
  predicate ValidSettings(s: Settings) {
    && (forall i, j :: 0 <= i < j < |s.fields| ==> s.fields[i].name != s.fields[j].name && s.fields[i].column != s.fields[j].column)
    && (forall name :: name in s.identity ==> Named(s.fields, name).Some? && Fixed(Named(s.fields, name).value))
    && NoRepeats(s.identity) && NoRepeats(s.scopeKeys)
  }

  predicate Fixed(f: FieldLayout) { !f.nullable && !f.mutates }

  function Named(fields: seq<FieldLayout>, name: string): (f: Option<FieldLayout>)
    ensures f.Some? ==> f.value in fields && f.value.name == name
    ensures f.None? ==> forall g :: g in fields ==> g.name != name
  {
    if fields == [] then None else if fields[0].name == name then Some(fields[0]) else Named(fields[1..], name)
  }

  function AtColumn(fields: seq<FieldLayout>, column: string): (f: Option<FieldLayout>)
    ensures f.Some? ==> f.value in fields && f.value.column == column
    ensures f.None? ==> forall g :: g in fields ==> g.column != column
  {
    if fields == [] then None else if fields[0].column == column then Some(fields[0]) else AtColumn(fields[1..], column)
  }

  // --- Calls ---

  datatype Mode = IfAbsent | Update | Upsert

  /** `data` is a dictionary in its own order. */
  datatype Put = Put(mode: Mode, expected: Option<int>, data: seq<(string, Cell)>)

  datatype Context = Context(tenant: Option<string>, scope: map<string, string>)

  datatype Error = Invalid | UniqueViolation | ConditionFailed

  predicate Has(data: seq<(string, Cell)>, name: string) { exists i :: 0 <= i < |data| && data[i].0 == name }

  /** `data.get(name)`. */
  function Get(data: seq<(string, Cell)>, name: string): (v: Cell)
    ensures v != Null ==> Has(data, name)
  {
    if data == [] then Null else if data[0].0 == name then data[0].1
    else
      var v := Get(data[1..], name);
      assert v != Null ==> Has(data, name) by {
        if v != Null { var i :| 0 <= i < |data[1..]| && data[1..][i].0 == name; assert data[i + 1].0 == name; }
      }
      v
  }

  predicate Dictionary(data: seq<(string, Cell)>) { forall i, j :: 0 <= i < j < |data| ==> data[i].0 != data[j].0 }

  // --- Statements ---

  datatype Source = Bound(value: Cell) | Excluded | Own | OwnPlusOne | Clock

  datatype Assign = Assign(column: Column, source: Source)

  /** An INSERT with an optional ON CONFLICT (key) DO UPDATE, or an UPDATE on key columns and perhaps the version. */
  datatype Statement =
    | Insert(columns: seq<Column>, values: seq<Cell>, onConflict: Option<seq<Assign>>)
    | UpdateRows(set_: seq<Assign>, columns: seq<Column>, values: seq<Cell>, version: Option<int>)

  /** `conditional`: no returned row is a failure. */
  datatype Command = Command(statement: Statement, conditional: bool)

  type Row = map<Column, Cell>

  /** A table indexed by its primary key: scope columns, then identity columns. */
  type Table = map<seq<Cell>, Row>

  function ScopeColumns(s: Settings): (cs: seq<Column>)
    ensures |cs| == |s.scopeKeys| + 1
  {
    [Tenant] + seq(|s.scopeKeys|, (i: nat) requires i < |s.scopeKeys| => ScopeOf(s.scopeKeys[i]))
  }

  function IdentityColumns(s: Settings): (cs: seq<Column>)
    requires ValidSettings(s)
    ensures |cs| == |s.identity| && forall i :: 0 <= i < |cs| ==> cs[i] == OfField(Named(s.fields, s.identity[i]).value.column)
  {
    seq(|s.identity|, (i: nat) requires i < |s.identity| => (assert s.identity[i] in s.identity; OfField(Named(s.fields, s.identity[i]).value.column)))
  }

  function KeyColumns(s: Settings): seq<Column>
    requires ValidSettings(s)
  {
    ScopeColumns(s) + IdentityColumns(s)
  }

  function AllColumns(s: Settings): set<Column> {
    {Tenant, RecordVersion, CreatedAt, UpdatedAt} + (set k | k in s.scopeKeys :: ScopeOf(k)) + (set f | f in s.fields :: OfField(f.column))
  }

  /** The row's cells under some columns. */
  function Cells(row: Row, columns: seq<Column>): (vs: seq<Cell>)
    requires forall c :: c in columns ==> c in row
    ensures |vs| == |columns| && forall i :: 0 <= i < |vs| ==> vs[i] == row[columns[i]]
  {
    seq(|columns|, (i: nat) requires i < |columns| => (assert columns[i] in columns; row[columns[i]]))
  }

  predicate GoodRow(s: Settings, row: Row)
    requires ValidSettings(s)
  {
    row.Keys == AllColumns(s) && row[RecordVersion].Number?
  }

  lemma ScopeColumnExists(s: Settings, i: nat)
    requires i < |ScopeColumns(s)|
    ensures ScopeColumns(s)[i] in AllColumns(s) && ScopeColumns(s)[i] !in {RecordVersion, CreatedAt, UpdatedAt}
  {
    if i > 0 { assert s.scopeKeys[i - 1] in s.scopeKeys; }
  }

  lemma IdentityColumnExists(s: Settings, i: nat)
    requires ValidSettings(s) && i < |s.identity|
    ensures IdentityColumns(s)[i] in AllColumns(s) && IdentityColumns(s)[i] !in {RecordVersion, CreatedAt, UpdatedAt}
  {
    assert s.identity[i] in s.identity;
    assert Named(s.fields, s.identity[i]).value in s.fields;
  }

  lemma KeyColumnsExist(s: Settings, c: Column)
    requires ValidSettings(s) && c in KeyColumns(s)
    ensures c in AllColumns(s) && c !in {RecordVersion, CreatedAt, UpdatedAt}
  {
    if c in ScopeColumns(s) {
      var i :| 0 <= i < |ScopeColumns(s)| && ScopeColumns(s)[i] == c;
      ScopeColumnExists(s, i);
    } else {
      var i :| 0 <= i < |IdentityColumns(s)| && IdentityColumns(s)[i] == c;
      IdentityColumnExists(s, i);
    }
  }

  ghost predicate Indexed(s: Settings, t: Table)
    requires ValidSettings(s)
  {
    forall k :: k in t ==> Filed(s, k, t[k])
  }

  ghost predicate Filed(s: Settings, key: seq<Cell>, row: Row)
    requires ValidSettings(s)
  {
    GoodRow(s, row) && |key| == |KeyColumns(s)| && forall i :: 0 <= i < |key| ==> KeyColumns(s)[i] in row && row[KeyColumns(s)[i]] == key[i]
  }

  function Default(c: Column, now: int): Cell {
    match c case RecordVersion => Number(1) case CreatedAt => Time(now) case UpdatedAt => Time(now) case _ => Null
  }

  /** The value given for a column, or none. */
  function Given(columns: seq<Column>, values: seq<Cell>, c: Column): Option<Cell>
    requires |columns| == |values|
  {
    if columns == [] then None
    else if columns[|columns| - 1] == c then Some(values[|values| - 1])
    else Given(columns[..|columns| - 1], values[..|values| - 1], c)
  }

  function InsertedCell(columns: seq<Column>, values: seq<Cell>, now: int, c: Column): Cell
    requires |columns| == |values|
  {
    if Given(columns, values, c).Some? then Given(columns, values, c).value else Default(c, now)
  }

  function Inserted(s: Settings, columns: seq<Column>, values: seq<Cell>, now: int): Row
    requires |columns| == |values|
  {
    map c | c in AllColumns(s) :: InsertedCell(columns, values, now, c)
  }

  function SourceFor(set_: seq<Assign>, c: Column): Option<Source> {
    if set_ == [] then None
    else if set_[|set_| - 1].column == c then Some(set_[|set_| - 1].source)
    else SourceFor(set_[..|set_| - 1], c)
  }

  function Evaluate(source: Source, own: Cell, excluded: Cell, now: int): Cell {
    match source
    case Bound(v) => v
    case Excluded => excluded
    case Own => own
    case OwnPlusOne => if own.Number? then Number(own.n + 1) else own
    case Clock => Time(now)
  }

  function AssignedCell(own: Cell, excluded: Row, set_: seq<Assign>, now: int, c: Column): Cell {
    if SourceFor(set_, c).None? then own
    else Evaluate(SourceFor(set_, c).value, own, if c in excluded then excluded[c] else Null, now)
  }

  function Assigned(row: Row, excluded: Row, set_: seq<Assign>, now: int): Row {
    map c | c in row :: AssignedCell(row[c], excluded, set_, now, c)
  }

  /** SQL equality: NULL matches nothing. */
  predicate Matches(row: Row, columns: seq<Column>, values: seq<Cell>, version: Option<int>)
    requires |columns| == |values|
  {
    && (forall i :: 0 <= i < |columns| ==> columns[i] in row && values[i] != Null && row[columns[i]] == values[i])
    && (version.Some? ==> RecordVersion in row && row[RecordVersion] == Number(version.value))
  }

  /** Every matching row is assigned; the others stay. */
  function Updated(t: Table, set_: seq<Assign>, columns: seq<Column>, values: seq<Cell>, version: Option<int>, now: int): Table
    requires |columns| == |values|
  {
    map k | k in t :: if Matches(t[k], columns, values, version) then Assigned(t[k], map[], set_, now) else t[k]
  }

  predicate WellFormed(statement: Statement) { |statement.columns| == |statement.values| }

  /** The statement run on a table at a time. */
  function Execute(s: Settings, t: Table, c: Command, now: int): Result<Table, Error>
    requires ValidSettings(s) && WellFormed(c.statement)
  {
    match c.statement
    case Insert(columns, values, onConflict) =>
      var row := Inserted(s, columns, values, now);
      (InsertedHasKey(s, columns, values, now);
       var key := Cells(row, KeyColumns(s));
       if key !in t then Ok(t[key := row])
       else if onConflict.None? then Err(UniqueViolation)
       else Ok(t[key := Assigned(t[key], row, onConflict.value, now)]))
    case UpdateRows(set_, columns, values, version) =>
      if c.conditional && !(exists k :: k in t && Matches(t[k], columns, values, version)) then Err(ConditionFailed)
      else Ok(Updated(t, set_, columns, values, version, now))
  }

  lemma InsertedHasKey(s: Settings, columns: seq<Column>, values: seq<Cell>, now: int)
    requires ValidSettings(s) && |columns| == |values|
    ensures forall c :: c in KeyColumns(s) ==> c in Inserted(s, columns, values, now)
  {
    forall c | c in KeyColumns(s) ensures c in Inserted(s, columns, values, now) { KeyColumnsExist(s, c); }
  }

  // --- The compiler ---

  /** `_scope_values`: None when the context's scope is not exactly the configured one. */
  function ScopeValues(s: Settings, context: Context): (vs: Option<seq<Cell>>)
    ensures vs.Some? ==> |vs.value| == |s.scopeKeys| + 1 && forall v :: v in vs.value ==> v != Null
  {
    if context.tenant.None? || context.scope.Keys != (set k | k in s.scopeKeys) then None
    else
      Some([Text(context.tenant.value)]
           + seq(|s.scopeKeys|, (i: nat) requires i < |s.scopeKeys| => (assert s.scopeKeys[i] in s.scopeKeys; Text(context.scope[s.scopeKeys[i]]))))
  }

  /** The fields are exactly known ones, every required one is given, and only nullable ones are NULL. */
  predicate GoodData(s: Settings, data: seq<(string, Cell)>) {
    && (forall i :: 0 <= i < |data| ==> Named(s.fields, data[i].0).Some? && (data[i].1 == Null ==> Named(s.fields, data[i].0).value.nullable))
    && (forall i :: 0 <= i < |s.fields| ==> s.fields[i].nullable || Has(data, s.fields[i].name))
  }

  /** `_assignments`: at least one change, none of an identity or immutable field. */
  predicate GoodChanges(s: Settings, changes: seq<(string, Cell)>) {
    changes != [] && forall i :: 0 <= i < |changes| ==>
      Named(s.fields, changes[i].0).Some? && changes[i].0 !in s.identity && Named(s.fields, changes[i].0).value.mutates
  }

  function Changes(s: Settings, data: seq<(string, Cell)>): seq<(string, Cell)> {
    if data == [] then [] else
      var before := Changes(s, data[..|data| - 1]);
      if data[|data| - 1].0 in s.identity then before else before + [data[|data| - 1]]
  }

  /** Which puts compile. */
  predicate Accepted(s: Settings, context: Context, put: Put) {
    && !(put.mode == IfAbsent && put.expected.Some?)
    && GoodData(s, put.data)
    && ScopeValues(s, context).Some?
    && (put.expected.Some? ==> GoodChanges(s, Changes(s, put.data)))
  }

  const BUMP: seq<Assign> := [Assign(RecordVersion, OwnPlusOne), Assign(UpdatedAt, Clock)]

  const TOUCH: seq<Assign> := [Assign(UpdatedAt, Own)]

  function MutableFields(s: Settings): seq<FieldLayout> { MutableAmong(s.fields, s.identity) }

  function MutableAmong(fields: seq<FieldLayout>, identity: seq<string>): (ms: seq<FieldLayout>)
    ensures forall f :: f in ms <==> f in fields && f.mutates && f.name !in identity
  {
    if fields == [] then [] else
      var n := |fields| - 1;
      assert fields == fields[..n] + [fields[n]];
      MutableAmong(fields[..n], identity) + if fields[n].mutates && fields[n].name !in identity then [fields[n]] else []
  }

  function AssignAll(fields: seq<FieldLayout>, source: FieldLayout -> Source): (as_: seq<Assign>)
    ensures |as_| == |fields| && forall i :: 0 <= i < |fields| ==> as_[i] == Assign(OfField(fields[i].column), source(fields[i]))
  {
    seq(|fields|, (i: nat) requires i < |fields| => Assign(OfField(fields[i].column), source(fields[i])))
  }

  function FromExcluded(): FieldLayout -> Source { (f: FieldLayout) => Excluded }

  function FromData(data: seq<(string, Cell)>): FieldLayout -> Source { (f: FieldLayout) => Bound(Get(data, f.name)) }

  function WithBump(s: Settings, set_: seq<Assign>): seq<Assign> { if MutableFields(s) == [] then TOUCH else set_ + BUMP }

  function ChangeSet(s: Settings, changes: seq<(string, Cell)>): (as_: seq<Assign>)
    requires forall i :: 0 <= i < |changes| ==> Named(s.fields, changes[i].0).Some?
    ensures |as_| == |changes|
    ensures forall i :: 0 <= i < |changes| ==> as_[i] == Assign(OfField(Named(s.fields, changes[i].0).value.column), Bound(changes[i].1))
  {
    seq(|changes|, (i: nat) requires i < |changes| => Assign(OfField(Named(s.fields, changes[i].0).value.column), Bound(changes[i].1)))
  }

  function DataColumns(s: Settings, data: seq<(string, Cell)>): (cs: seq<Column>)
    requires forall i :: 0 <= i < |data| ==> Named(s.fields, data[i].0).Some?
    ensures |cs| == |data| && forall i :: 0 <= i < |data| ==> cs[i] == OfField(Named(s.fields, data[i].0).value.column)
  {
    seq(|data|, (i: nat) requires i < |data| => OfField(Named(s.fields, data[i].0).value.column))
  }

  function DataValues(data: seq<(string, Cell)>): (vs: seq<Cell>)
    ensures |vs| == |data| && forall i :: 0 <= i < |data| ==> vs[i] == data[i].1
  {
    seq(|data|, (i: nat) requires i < |data| => data[i].1)
  }

  function IdentityValues(s: Settings, data: seq<(string, Cell)>): (vs: seq<Cell>)
    ensures |vs| == |s.identity| && forall i :: 0 <= i < |vs| ==> vs[i] == Get(data, s.identity[i])
  {
    seq(|s.identity|, (i: nat) requires i < |s.identity| => Get(data, s.identity[i]))
  }

  /** The command of an accepted put. */
  function Compiled(s: Settings, context: Context, put: Put): (c: Command)
    requires ValidSettings(s) && Accepted(s, context, put)
    ensures WellFormed(c.statement)
  {
    var scope := ScopeValues(s, context).value;
    var key := scope + IdentityValues(s, put.data);
    if put.expected.Some? then
      Command(UpdateRows(ChangeSet(s, Changes(s, put.data)) + BUMP, KeyColumns(s), key, put.expected), true)
    else if put.mode == Update then
      Command(UpdateRows(WithBump(s, AssignAll(MutableFields(s), FromData(put.data))), KeyColumns(s), key, None), true)
    else
      var conflict := if put.mode == Upsert then Some(WithBump(s, AssignAll(MutableFields(s), FromExcluded()))) else None;
      Command(Insert(ScopeColumns(s) + DataColumns(s, put.data), scope + DataValues(put.data), conflict), false)
  }

  predicate AllKnown(s: Settings, data: seq<(string, Cell)>) { forall i :: 0 <= i < |data| ==> Named(s.fields, data[i].0).Some? }

  predicate NullsAllowed(s: Settings, data: seq<(string, Cell)>)
    requires AllKnown(s, data)
  {
    forall i :: 0 <= i < |data| ==> data[i].1 == Null ==> Named(s.fields, data[i].0).value.nullable
  }

  predicate RequiredGiven(s: Settings, data: seq<(string, Cell)>) {
    forall i :: 0 <= i < |s.fields| ==> s.fields[i].nullable || Has(data, s.fields[i].name)
  }

  /** `_put`. */
  method CompilePut(s: Settings, context: Context, put: Put) returns (r: Result<Command, Error>)
    requires ValidSettings(s)
    ensures r == if Accepted(s, context, put) then Ok(Compiled(s, context, put)) else Err(Invalid)
  {
    if put.mode == IfAbsent && put.expected.Some? { return Err(Invalid); }
    var fieldsMatch := CheckFields(s, put.data);
    var scope := ScopeValues(s, context);
    if !fieldsMatch || scope.None? { return Err(Invalid); }
    var columns, values, ok := InsertParts(s, scope.value, put.data);
    if !ok { return Err(Invalid); }
    assert GoodData(s, put.data);
    var key := scope.value + IdentityValues(s, put.data);
    if put.expected.Some? {
      var changes := ChangesOf(s, put.data);
      if !GoodChanges(s, changes) { return Err(Invalid); }
      var set_ := BuildChanges(s, changes);
      return Ok(Command(UpdateRows(set_ + BUMP, KeyColumns(s), key, put.expected), true));
    }
    var fromExcluded, fromData := BuildMutable(MutableFields(s), put.data);
    if put.mode == Update {
      return Ok(Command(UpdateRows(WithBump(s, fromData), KeyColumns(s), key, None), true));
    }
    var conflict := if put.mode == Upsert then Some(WithBump(s, fromExcluded)) else None;
    return Ok(Command(Insert(columns, values, conflict), false));
  }

  /** Unknown and missing fields. */
  method CheckFields(s: Settings, data: seq<(string, Cell)>) returns (ok: bool)
    ensures ok <==> AllKnown(s, data) && RequiredGiven(s, data)
  {
    for i := 0 to |data|
      invariant forall j :: 0 <= j < i ==> Named(s.fields, data[j].0).Some?
    {
      if Named(s.fields, data[i].0).None? { return false; }
    }
    for i := 0 to |s.fields|
      invariant forall j :: 0 <= j < i ==> s.fields[j].nullable || Has(data, s.fields[j].name)
    {
      if !s.fields[i].nullable && !Has(data, s.fields[i].name) { return false; }
    }
    return true;
  }

  /** The columns and values of the INSERT, checking each value against its field. */
  method InsertParts(s: Settings, scope: seq<Cell>, data: seq<(string, Cell)>) returns (columns: seq<Column>, values: seq<Cell>, ok: bool)
    requires AllKnown(s, data)
    ensures ok <==> NullsAllowed(s, data)
    ensures ok ==> columns == ScopeColumns(s) + DataColumns(s, data) && values == scope + DataValues(data)
  {
    columns, values := ScopeColumns(s), scope;
    for i := 0 to |data|
      invariant columns == ScopeColumns(s) + DataColumns(s, data)[..i]
      invariant values == scope + DataValues(data)[..i]
      invariant forall j :: 0 <= j < i ==> data[j].1 == Null ==> Named(s.fields, data[j].0).value.nullable
    {
      var f := Named(s.fields, data[i].0).value;
      if data[i].1 == Null && !f.nullable { return columns, values, false; }
      columns, values := columns + [OfField(f.column)], values + [data[i].1];
    }
    ok := true;
  }

  /** `_assignments`. */
  method BuildChanges(s: Settings, changes: seq<(string, Cell)>) returns (set_: seq<Assign>)
    requires AllKnown(s, changes)
    ensures set_ == ChangeSet(s, changes)
  {
    set_ := [];
    for i := 0 to |changes|
      invariant set_ == ChangeSet(s, changes)[..i]
    {
      set_ := set_ + [Assign(OfField(Named(s.fields, changes[i].0).value.column), Bound(changes[i].1))];
    }
  }

  /** The assignments of every mutable field, from the proposed row and from the data. */
  method BuildMutable(mutable: seq<FieldLayout>, data: seq<(string, Cell)>) returns (fromExcluded: seq<Assign>, fromData: seq<Assign>)
    ensures fromExcluded == AssignAll(mutable, FromExcluded()) && fromData == AssignAll(mutable, FromData(data))
  {
    fromExcluded, fromData := [], [];
    for i := 0 to |mutable|
      invariant fromExcluded == AssignAll(mutable, FromExcluded())[..i]
      invariant fromData == AssignAll(mutable, FromData(data))[..i]
    {
      fromExcluded := fromExcluded + [Assign(OfField(mutable[i].column), Excluded)];
      fromData := fromData + [Assign(OfField(mutable[i].column), Bound(Get(data, mutable[i].name)))];
    }
  }

  /** The given fields that are not identity, in order. */
  method ChangesOf(s: Settings, data: seq<(string, Cell)>) returns (changes: seq<(string, Cell)>)
    ensures changes == Changes(s, data)
  {
    changes := [];
    for i := 0 to |data|
      invariant changes == Changes(s, data[..i])
    {
      assert data[..i + 1][..i] == data[..i];
      if data[i].0 !in s.identity { changes := changes + [data[i]]; }
    }
    assert data[..|data|] == data;
  }
}
