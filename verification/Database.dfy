/**
 The part of PostgreSQL the migrations rely on: tables with typed columns, constraints, indexes and
 rows, and the statements Alembic's `op.*` calls issue.
 */
module Database {
  import opened Wrappers

  datatype Value = Null | Text(s: string) | Int(i: int) | Bool(b: bool) | Opaque(tag: int)

  datatype ColType = Varchar(n: nat) | TextType | Integer | Boolean | Numeric | Jsonb | Timestamptz

  /** A server default: none, a literal, or `now()`, which stands for the statement's own time. */
  datatype Default = NoDefault | Literal(v: Value) | Now

  datatype Column = Column(typ: ColType, nullable: bool, default: Default)

  type Row = map<string, Value>

  datatype Constraint =
    | PrimaryKey(col: string)
    | Unique(cols: seq<string>)
    | ForeignKey(col: string, refTable: string, refCol: string)
    | Check(col: string, allowed: set<string>)

  datatype Table = Table(columns: map<string, Column>, constraints: map<string, Constraint>, rows: seq<Row>)

  datatype Index = Index(table: string, cols: seq<string>)

  datatype Db = Db(tables: map<string, Table>, indexes: map<string, Index>)

  // ---- what rows must satisfy

  function Val(row: Row, col: string): Value
  {
    if col in row then row[col] else Null
  }

  /** A value the column can hold: NULL where allowed, and a VARCHAR(n) no longer than n. */
  predicate Conforms(v: Value, column: Column)
  {
    if v.Null? then column.nullable
    else match column.typ
      case Varchar(n) => v.Text? && |v.s| <= n
      case TextType => v.Text?
      case Integer => v.Int?
      case Boolean => v.Bool?
      case _ => v.Opaque?
  }

  predicate SameKey(cols: seq<string>, a: Row, b: Row)
  {
    forall c :: c in cols ==> Val(a, c) == Val(b, c) && !Val(a, c).Null?
  }

  predicate Refers(v: Value, target: seq<Row>, refCol: string)
  {
    exists i :: 0 <= i < |target| && Val(target[i], refCol) == v
  }

  /** A CHECK passes unless it is false, so NULL passes. */
  predicate CheckPasses(v: Value, allowed: set<string>)
  {
    v.Null? || (v.Text? && v.s in allowed)
  }

  predicate Holds(tables: map<string, Table>, rows: seq<Row>, c: Constraint)
  {
    match c
    case PrimaryKey(col) =>
      && (forall i :: 0 <= i < |rows| ==> !Val(rows[i], col).Null?)
      && forall i, j :: 0 <= i < j < |rows| ==> !SameKey([col], rows[i], rows[j])
    case Unique(cols) => forall i, j :: 0 <= i < j < |rows| ==> !SameKey(cols, rows[i], rows[j])
    case ForeignKey(col, refTable, refCol) =>
      forall i :: 0 <= i < |rows| && !Val(rows[i], col).Null? ==>
        refTable in tables && Refers(Val(rows[i], col), tables[refTable].rows, refCol)
    case Check(col, allowed) => forall i :: 0 <= i < |rows| ==> CheckPasses(Val(rows[i], col), allowed)
  }

  function ColsOf(c: Constraint): set<string>
  {
    match c
    case PrimaryKey(col) => {col}
    case Unique(cols) => set x | x in cols
    case ForeignKey(col, _, _) => {col}
    case Check(col, _) => {col}
  }

  /** The constraint names only columns that exist. */
  predicate WellFormed(tables: map<string, Table>, columns: set<string>, c: Constraint)
  {
    && ColsOf(c) <= columns
    && (c.ForeignKey? ==> c.refTable in tables && c.refCol in tables[c.refTable].columns)
  }

  predicate RowFits(row: Row, columns: map<string, Column>)
  {
    row.Keys == columns.Keys && forall c :: c in columns ==> Conforms(row[c], columns[c])
  }

  predicate TableValid(tables: map<string, Table>, t: Table)
  {
    && (forall i :: 0 <= i < |t.rows| ==> RowFits(t.rows[i], t.columns))
    && (forall n :: n in t.constraints ==> WellFormed(tables, t.columns.Keys, t.constraints[n]))
    && (forall n :: n in t.constraints ==> Holds(tables, t.rows, t.constraints[n]))
  }

  predicate IndexValid(tables: map<string, Table>, x: Index)
  {
    x.table in tables && forall c :: c in x.cols ==> c in tables[x.table].columns
  }

  /** Every row satisfies every constraint of the schema, and the schema refers only to what exists. */
  predicate Valid(d: Db)
  {
    && (forall t :: t in d.tables ==> TableValid(d.tables, d.tables[t]))
    && (forall x :: x in d.indexes ==> IndexValid(d.tables, d.indexes[x]))
  }

  // ---- the statements

  /** The two counts of revision 0044. */
  datatype Guard = HoldsValue(v: string) | Outside(allowed: set<string>)

  datatype Op =
    | AlterType(table: string, col: string, existing: ColType, to: ColType)
    | AddColumn(table: string, col: string, def: Column)
    | DropColumn(table: string, col: string)
    | CreateTable(table: string, columns: map<string, Column>, constraints: map<string, Constraint>)
    | DropTable(table: string)
    | CreateIndex(name: string, table: string, cols: seq<string>)
    | DropIndex(name: string)
    | AddConstraint(name: string, table: string, c: Constraint)
    | DropConstraint(name: string, table: string)
    | HaltIfAny(table: string, col: string, guard: Guard)

  datatype Failure = SchemaError | DataError | Halted(guard: Guard, count: nat)

  datatype Outcome = Done(db: Db) | Failed(why: Failure)

  function Fill(def: Column): Value
  {
    match def.default
    case NoDefault => Null
    case Literal(v) => v
    case Now => Opaque(0)
  }

  function WithColumn(rows: seq<Row>, col: string, v: Value): seq<Row>
  {
    seq(|rows|, i requires 0 <= i < |rows| => rows[i][col := v])
  }

  function WithoutColumn(rows: seq<Row>, col: string): seq<Row>
  {
    seq(|rows|, i requires 0 <= i < |rows| => rows[i] - {col})
  }

  predicate RefersTo(c: Constraint, table: string)
  {
    c.ForeignKey? && c.refTable == table
  }

  /** Another table has a foreign key into this one (into this column of it, when one is named). */
  predicate ReferencedElsewhere(d: Db, table: string, col: Option<string>)
  {
    exists t :: t in d.tables && t != table && PointsAt(d.tables[t], table, col)
  }

  predicate PointsAt(t: Table, table: string, col: Option<string>)
  {
    exists n :: n in t.constraints && RefersTo(t.constraints[n], table) && (col.None? || t.constraints[n].refCol == col.value)
  }

  predicate Matches(v: Value, guard: Guard)
  {
    match guard
    case HoldsValue(x) => v == Text(x)
    case Outside(allowed) => !v.Null? && !(v.Text? && v.s in allowed)
  }

  /** `SELECT count(*) ... WHERE ...`; a comparison with NULL is not true, so NULL rows never count. */
  function CountMatching(rows: seq<Row>, col: string, guard: Guard): nat
  {
    if rows == [] then 0
    else (if Matches(Val(rows[0], col), guard) then 1 else 0) + CountMatching(rows[1..], col, guard)
  }

  predicate HasColumn(d: Db, table: string, col: string)
  {
    table in d.tables && col in d.tables[table].columns
  }

  function WithTable(d: Db, table: string, t: Table): Db
  {
    d.(tables := d.tables[table := t])
  }

  /** What the schema alone demands of a statement. */
  predicate SchemaOk(op: Op, d: Db)
  {
    match op
    case AlterType(t, c, _, _) => HasColumn(d, t, c)
    case AddColumn(t, c, _) => t in d.tables && c !in d.tables[t].columns
    case DropColumn(t, c) => HasColumn(d, t, c) && !ReferencedElsewhere(d, t, Some(c))
    case CreateTable(t, columns, constraints) =>
      t !in d.tables && forall n :: n in constraints ==> WellFormed(d.tables, columns.Keys, constraints[n])
    case DropTable(t) => t in d.tables && !ReferencedElsewhere(d, t, None)
    case CreateIndex(x, t, cols) => x !in d.indexes && IndexValid(d.tables, Index(t, cols))
    case DropIndex(x) => x in d.indexes
    case AddConstraint(n, t, c) =>
      && t in d.tables && n !in d.tables[t].constraints && WellFormed(d.tables, d.tables[t].columns.Keys, c)
    case DropConstraint(n, t) =>
      && t in d.tables && n in d.tables[t].constraints
      && (d.tables[t].constraints[n].ForeignKey? || d.tables[t].constraints[n].Check?)
    case HaltIfAny(t, c, _) => HasColumn(d, t, c)
  }

  predicate FitsNewType(d: Db, t: string, c: string, to: ColType)
    requires HasColumn(d, t, c)
  {
    var column := d.tables[t].columns[c].(typ := to);
    forall i :: 0 <= i < |d.tables[t].rows| ==> Conforms(Val(d.tables[t].rows[i], c), column)
  }

  /** What the rows must satisfy for the statement to go through. */
  predicate DataOk(op: Op, d: Db)
    requires SchemaOk(op, d)
  {
    match op
    case AlterType(t, c, _, to) => FitsNewType(d, t, c, to)
    case AddColumn(t, _, def) => d.tables[t].rows == [] || Conforms(Fill(def), def)
    case AddConstraint(_, t, c) => Holds(d.tables, d.tables[t].rows, c)
    case HaltIfAny(t, c, guard) => CountMatching(d.tables[t].rows, c, guard) == 0
    case _ => true
  }

  /** The database after a statement that goes through. */
  function Effect(op: Op, d: Db): Db
    requires SchemaOk(op, d)
  {
    match op
    case AlterType(t, c, _, to) =>
      var table := d.tables[t];
      WithTable(d, t, table.(columns := table.columns[c := table.columns[c].(typ := to)]))
    case AddColumn(t, c, def) =>
      var table := d.tables[t];
      WithTable(d, t, table.(columns := table.columns[c := def], rows := WithColumn(table.rows, c, Fill(def))))
    case DropColumn(t, c) =>
      var table := d.tables[t];
      Db(d.tables[t := Table(table.columns - {c}, ConstraintsWithout(table.constraints, t, c), WithoutColumn(table.rows, c))],
         IndexesWithout(d.indexes, t, c))
    case CreateTable(t, columns, constraints) => WithTable(d, t, Table(columns, constraints, []))
    case DropTable(t) => Db(d.tables - {t}, IndexesOfOthers(d.indexes, t))
    case CreateIndex(x, t, cols) => d.(indexes := d.indexes[x := Index(t, cols)])
    case DropIndex(x) => d.(indexes := d.indexes - {x})
    case AddConstraint(n, t, c) => WithTable(d, t, d.tables[t].(constraints := d.tables[t].constraints[n := c]))
    case DropConstraint(n, t) => WithTable(d, t, d.tables[t].(constraints := d.tables[t].constraints - {n}))
    case HaltIfAny(_, _, _) => d
  }

  /** Dropping a column drops the table's own constraints on it ... */
  function ConstraintsWithout(constraints: map<string, Constraint>, table: string, col: string): map<string, Constraint>
  {
    map n | n in constraints && col !in ColsOf(constraints[n])
            && !(RefersTo(constraints[n], table) && constraints[n].refCol == col) :: constraints[n]
  }

  /** ... and the indexes over it; */
  function IndexesWithout(indexes: map<string, Index>, table: string, col: string): map<string, Index>
  {
    map x | x in indexes && !(indexes[x].table == table && col in indexes[x].cols) :: indexes[x]
  }

  /** dropping a table drops all its indexes. */
  function IndexesOfOthers(indexes: map<string, Index>, table: string): map<string, Index>
  {
    map x | x in indexes && indexes[x].table != table :: indexes[x]
  }

  function Apply(op: Op, d: Db): Outcome
  {
    if !SchemaOk(op, d) then Failed(SchemaError)
    else if !DataOk(op, d) then
      Failed(if op.HaltIfAny? then Halted(op.guard, CountMatching(d.tables[op.table].rows, op.col, op.guard)) else DataError)
    else Done(Effect(op, d))
  }

  /** A script of statements, stopping at the first one that fails. */
  function Run(ops: seq<Op>, d: Db): Outcome
  {
    if ops == [] then Done(d)
    else if Apply(ops[0], d).Failed? then Apply(ops[0], d)
    else Run(ops[1..], Apply(ops[0], d).db)
  }

  lemma {:induction false} RunAppend(a: seq<Op>, b: seq<Op>, d: Db)
    ensures Run(a + b, d) == if Run(a, d).Failed? then Run(a, d) else Run(b, Run(a, d).db)
  {
    hide Apply;
    if a == [] {
      assert a + b == b;
    } else {
      assert (a + b)[1..] == a[1..] + b;
      match Apply(a[0], d)
      case Failed(_) =>
      case Done(next) => RunAppend(a[1..], b, next);
    }
  }
}

/** What every statement keeps: validity, and the values of every column it does not drop. */
module Preservation {
  import opened Wrappers
  import opened Database

  /** All tables and columns of `small` are in `large`, with the same rows in the same order. */
  predicate Includes(small: Table, large: Table)
  {
    && small.columns.Keys <= large.columns.Keys
    && |small.rows| == |large.rows|
    && forall i, c :: 0 <= i < |small.rows| && c in small.columns ==> Val(small.rows[i], c) == Val(large.rows[i], c)
  }

  predicate Extends(small: Db, large: Db)
  {
    forall t :: t in small.tables ==> t in large.tables && Includes(small.tables[t], large.tables[t])
  }

  lemma ExtendsRefl(d: Db)
    ensures Extends(d, d)
  {
  }

  lemma IncludesTrans(a: Table, b: Table, c: Table)
    requires Includes(a, b) && Includes(b, c)
    ensures Includes(a, c)
  {
    forall i, x | 0 <= i < |a.rows| && x in a.columns
      ensures Val(a.rows[i], x) == Val(c.rows[i], x)
    {
      assert Val(a.rows[i], x) == Val(b.rows[i], x);
      assert x in b.columns;
    }
  }

  lemma ExtendsTrans(a: Db, b: Db, c: Db)
    requires Extends(a, b) && Extends(b, c)
    ensures Extends(a, c)
  {
    hide Includes;
    forall t | t in a.tables
      ensures t in c.tables && Includes(a.tables[t], c.tables[t])
    {
      IncludesTrans(a.tables[t], b.tables[t], c.tables[t]);
    }
  }

  predicate IsUp(op: Op)
  {
    op.AlterType? || op.AddColumn? || op.CreateTable? || op.CreateIndex? || op.AddConstraint? || op.HaltIfAny?
  }

  predicate IsDown(op: Op)
  {
    op.AlterType? || op.DropColumn? || op.DropTable? || op.DropIndex? || op.DropConstraint?
  }

  /** An upward statement leaves every existing value where it is. */
  lemma UpExtends(op: Op, d: Db)
    requires SchemaOk(op, d) && IsUp(op)
    ensures Extends(d, Effect(op, d))
  {
    var d' := Effect(op, d);
    forall t | t in d.tables
      ensures t in d'.tables && Includes(d.tables[t], d'.tables[t])
    {
    }
  }

  /** A downward statement keeps the values of everything that is left. */
  lemma DownExtends(op: Op, d: Db)
    requires SchemaOk(op, d) && IsDown(op)
    ensures Extends(Effect(op, d), d)
  {
    var d' := Effect(op, d);
    forall t | t in d'.tables
      ensures t in d.tables && Includes(d'.tables[t], d.tables[t])
    {
    }
  }

  /** A constraint over columns both databases have says the same of both. */
  lemma SameVerdict(small: Db, large: Db, t: string, c: Constraint)
    requires Extends(small, large) && t in small.tables && WellFormed(small.tables, small.tables[t].columns.Keys, c)
    ensures Holds(small.tables, small.tables[t].rows, c) <==> Holds(large.tables, large.tables[t].rows, c)
  {
    var a, b := small.tables[t], large.tables[t];
    assert Includes(a, b);
    match c
    case PrimaryKey(col) =>
      KeysAgree([col], a, b);
      assert forall i :: 0 <= i < |a.rows| ==> Val(a.rows[i], col) == Val(b.rows[i], col);
    case Unique(cols) => KeysAgree(cols, a, b);
    case Check(col, _) =>
      assert forall i :: 0 <= i < |a.rows| ==> Val(a.rows[i], col) == Val(b.rows[i], col);
    case ForeignKey(col, refTable, refCol) =>
      assert forall i :: 0 <= i < |a.rows| ==> Val(a.rows[i], col) == Val(b.rows[i], col);
      forall v
        ensures Refers(v, small.tables[refTable].rows, refCol) <==> Refers(v, large.tables[refTable].rows, refCol)
      {
        TargetsAgree(small.tables[refTable], large.tables[refTable], refCol, v);
      }
  }

  lemma KeysAgree(cols: seq<string>, a: Table, b: Table)
    requires Includes(a, b) && forall c :: c in cols ==> c in a.columns
    ensures forall i, j :: 0 <= i < j < |a.rows| ==>
              (SameKey(cols, a.rows[i], a.rows[j]) <==> SameKey(cols, b.rows[i], b.rows[j]))
  {
    forall i, j | 0 <= i < j < |a.rows|
      ensures SameKey(cols, a.rows[i], a.rows[j]) <==> SameKey(cols, b.rows[i], b.rows[j])
    {
      assert forall c :: c in cols ==> Val(a.rows[i], c) == Val(b.rows[i], c) && Val(a.rows[j], c) == Val(b.rows[j], c);
    }
  }

  lemma TargetsAgree(a: Table, b: Table, col: string, v: Value)
    requires Includes(a, b) && col in a.columns
    ensures Refers(v, a.rows, col) <==> Refers(v, b.rows, col)
  {
    assert forall i :: 0 <= i < |a.rows| ==> Val(a.rows[i], col) == Val(b.rows[i], col);
  }

  // ---- validity

  predicate Works(op: Op, d: Db)
  {
    SchemaOk(op, d) && DataOk(op, d)
  }

  lemma RowsFit(op: Op, d: Db, t: string, i: nat)
    requires Valid(d) && Works(op, d) && t in Effect(op, d).tables && i < |Effect(op, d).tables[t].rows|
    ensures RowFits(Effect(op, d).tables[t].rows[i], Effect(op, d).tables[t].columns)
  {
    if t in d.tables {
      assert TableValid(d.tables, d.tables[t]);
      assert i < |d.tables[t].rows|;
      var before := d.tables[t].rows[i];
      assert RowFits(before, d.tables[t].columns);
      if op.AlterType? && op.table == t {
        assert Conforms(Val(before, op.col), d.tables[t].columns[op.col].(typ := op.to));
      }
      hide Holds, WellFormed, Valid, TableValid, Conforms, Fill;
    }
  }

  /** A constraint the statement does not remove was there before, or is the one it adds. */
  lemma ConstraintOrigin(op: Op, d: Db, t: string, n: string)
    requires SchemaOk(op, d) && t in Effect(op, d).tables && n in Effect(op, d).tables[t].constraints
    ensures var c := Effect(op, d).tables[t].constraints[n];
            || (t in d.tables && n in d.tables[t].constraints && d.tables[t].constraints[n] == c)
            || (op.CreateTable? && op.table == t && n in op.constraints && op.constraints[n] == c)
            || (op.AddConstraint? && op.table == t && op.name == n && op.c == c)
  {
    hide ReferencedElsewhere, WellFormed;
  }

  lemma KeptWellFormedUp(op: Op, d: Db, t: string, c: Constraint)
    requires SchemaOk(op, d) && IsUp(op) && t in d.tables && WellFormed(d.tables, d.tables[t].columns.Keys, c)
    ensures t in Effect(op, d).tables
    ensures WellFormed(Effect(op, d).tables, Effect(op, d).tables[t].columns.Keys, c)
  {
    UpExtends(op, d);
    hide SchemaOk, Effect;
    var d' := Effect(op, d);
    assert Includes(d.tables[t], d'.tables[t]);
    if c.ForeignKey? {
      assert Includes(d.tables[c.refTable], d'.tables[c.refTable]);
    }
  }

  /** A statement that removes a column or table removes or refuses every constraint that needs it. */
  lemma KeptWellFormedDown(op: Op, d: Db, t: string, n: string)
    requires Valid(d) && SchemaOk(op, d) && IsDown(op) && !op.AlterType?
    requires t in Effect(op, d).tables && n in Effect(op, d).tables[t].constraints
    ensures var d' := Effect(op, d);
            && t in d.tables && n in d.tables[t].constraints && d'.tables[t].constraints[n] == d.tables[t].constraints[n]
            && WellFormed(d'.tables, d'.tables[t].columns.Keys, d'.tables[t].constraints[n])
  {
    ConstraintOrigin(op, d, t, n);
    assert TableValid(d.tables, d.tables[t]);
    var d', c := Effect(op, d), d.tables[t].constraints[n];
    assert WellFormed(d.tables, d.tables[t].columns.Keys, c);
    OwnColumnsKept(op, d, t, n);
    if c.ForeignKey? {
      TargetKept(op, d, t, n);
    }
    hide Effect, SchemaOk, TableValid, Valid, ColsOf;
  }

  lemma OwnColumnsKept(op: Op, d: Db, t: string, n: string)
    requires SchemaOk(op, d) && IsDown(op) && !op.AlterType?
    requires t in d.tables && n in d.tables[t].constraints && ColsOf(d.tables[t].constraints[n]) <= d.tables[t].columns.Keys
    requires t in Effect(op, d).tables && n in Effect(op, d).tables[t].constraints
    ensures ColsOf(d.tables[t].constraints[n]) <= Effect(op, d).tables[t].columns.Keys
  {
    hide ColsOf, ReferencedElsewhere, WellFormed;
  }

  lemma TargetKept(op: Op, d: Db, t: string, n: string)
    requires SchemaOk(op, d) && IsDown(op) && !op.AlterType?
    requires t in d.tables && n in d.tables[t].constraints && d.tables[t].constraints[n].ForeignKey?
    requires WellFormed(d.tables, d.tables[t].columns.Keys, d.tables[t].constraints[n])
    requires t in Effect(op, d).tables && n in Effect(op, d).tables[t].constraints
    ensures var c := d.tables[t].constraints[n];
            c.refTable in Effect(op, d).tables && c.refCol in Effect(op, d).tables[c.refTable].columns
  {
    ReferenceFound(d, t, n);
    hide ColsOf, ReferencedElsewhere;
  }

  lemma ReferenceFound(d: Db, t: string, n: string)
    requires t in d.tables && n in d.tables[t].constraints && d.tables[t].constraints[n].ForeignKey?
    ensures var c := d.tables[t].constraints[n];
            t != c.refTable ==>
              ReferencedElsewhere(d, c.refTable, None) && ReferencedElsewhere(d, c.refTable, Some(c.refCol))
  {
    var c := d.tables[t].constraints[n];
    assert RefersTo(c, c.refTable);
    assert PointsAt(d.tables[t], c.refTable, None) && PointsAt(d.tables[t], c.refTable, Some(c.refCol));
  }

  lemma ConstraintKept(op: Op, d: Db, t: string, n: string)
    requires Valid(d) && Works(op, d) && t in Effect(op, d).tables && n in Effect(op, d).tables[t].constraints
    ensures var d' := Effect(op, d);
            && WellFormed(d'.tables, d'.tables[t].columns.Keys, d'.tables[t].constraints[n])
            && Holds(d'.tables, d'.tables[t].rows, d'.tables[t].constraints[n])
  {
    var d' := Effect(op, d);
    var c := d'.tables[t].constraints[n];
    if IsDown(op) && !op.AlterType? {
      KeptWellFormedDown(op, d, t, n);
      DownExtends(op, d);
      assert TableValid(d.tables, d.tables[t]);
      hide Holds, WellFormed, Works, SchemaOk, DataOk, Effect;
      SameVerdict(d', d, t, c);
    } else {
      ConstraintOrigin(op, d, t, n);
      UpExtends(op, d);
      if t in d.tables {
        assert TableValid(d.tables, d.tables[t]);
        assert WellFormed(d.tables, d.tables[t].columns.Keys, c) && Holds(d.tables, d.tables[t].rows, c);
        hide Holds, WellFormed, Works, SchemaOk, DataOk, Effect;
        KeptWellFormedUp(op, d, t, c);
        SameVerdict(d, d', t, c);
      } else {
        assert d'.tables[t].rows == [];
      }
    }
  }

  lemma IndexKept(op: Op, d: Db, x: string)
    requires Valid(d) && SchemaOk(op, d) && x in Effect(op, d).indexes
    ensures IndexValid(Effect(op, d).tables, Effect(op, d).indexes[x])
  {
    if x in d.indexes {
      assert IndexValid(d.tables, d.indexes[x]);
    }
    hide TableValid, Valid, ReferencedElsewhere, WellFormed;
  }

  /** A statement that goes through keeps every row within every constraint. */
  lemma EffectValid(op: Op, d: Db)
    requires Valid(d) && Works(op, d)
    ensures Valid(Effect(op, d))
  {
    hide Effect, Works, RowFits, WellFormed, Holds, SchemaOk, DataOk;
    assert SchemaOk(op, d) by { WorksSchema(op, d); }
    var d' := Effect(op, d);
    forall t | t in d'.tables
      ensures TableValid(d'.tables, d'.tables[t])
    {
      forall i | 0 <= i < |d'.tables[t].rows|
        ensures RowFits(d'.tables[t].rows[i], d'.tables[t].columns)
      {
        RowsFit(op, d, t, i);
      }
      forall n | n in d'.tables[t].constraints
        ensures WellFormed(d'.tables, d'.tables[t].columns.Keys, d'.tables[t].constraints[n])
        ensures Holds(d'.tables, d'.tables[t].rows, d'.tables[t].constraints[n])
      {
        ConstraintKept(op, d, t, n);
      }
    }
    forall x | x in d'.indexes
      ensures IndexValid(d'.tables, d'.indexes[x])
    {
      IndexKept(op, d, x);
    }
  }

  lemma WorksSchema(op: Op, d: Db)
    requires Works(op, d)
    ensures SchemaOk(op, d)
  {
  }

  // ---- scripts

  predicate AllUp(ops: seq<Op>)
  {
    forall op :: op in ops ==> IsUp(op)
  }

  predicate AllDown(ops: seq<Op>)
  {
    forall op :: op in ops ==> IsDown(op)
  }

  lemma {:induction false} RunValid(ops: seq<Op>, d: Db)
    requires Valid(d) && Run(ops, d).Done?
    ensures Valid(Run(ops, d).db)
  {
    hide Valid, SchemaOk, DataOk, Effect;
    if ops != [] {
      EffectValid(ops[0], d);
      RunValid(ops[1..], Effect(ops[0], d));
    }
  }

  /** An upward script changes no value that was there; a downward one no value that is left. */
  lemma {:induction false} RunPreserves(ops: seq<Op>, d: Db)
    requires Run(ops, d).Done?
    ensures AllUp(ops) ==> Extends(d, Run(ops, d).db)
    ensures AllDown(ops) ==> Extends(Run(ops, d).db, d)
  {
    hide SchemaOk, DataOk, Effect, Extends, IsUp, IsDown;
    if ops == [] {
      ExtendsRefl(d);
    } else {
      var next := Effect(ops[0], d);
      RunPreserves(ops[1..], next);
      if AllUp(ops) {
        UpExtends(ops[0], d);
        ExtendsTrans(d, next, Run(ops, d).db);
      }
      if AllDown(ops) {
        DownExtends(ops[0], d);
        ExtendsTrans(Run(ops, d).db, next, d);
      }
    }
  }

  // ---- undoing

  /** The statement that takes back an upward one; a guard leaves nothing to take back. */
  function Inverse(op: Op): seq<Op>
  {
    match op
    case AlterType(t, c, existing, to) => [AlterType(t, c, to, existing)]
    case AddColumn(t, c, _) => [DropColumn(t, c)]
    case CreateTable(t, _, _) => [DropTable(t)]
    case CreateIndex(x, _, _) => [DropIndex(x)]
    case AddConstraint(n, t, c) => if c.ForeignKey? || c.Check? then [DropConstraint(n, t)] else []
    case _ => []
  }

  /** Undo a script statement by statement, last one first. */
  function Inverses(ops: seq<Op>): seq<Op>
  {
    if ops == [] then [] else Inverses(ops[1..]) + Inverse(ops[0])
  }

  /** The statement declares the column type it really finds, and adds no key that cannot be dropped again. */
  predicate Undoable(op: Op, d: Db)
    requires SchemaOk(op, d)
  {
    && IsUp(op)
    && (op.AlterType? ==> d.tables[op.table].columns[op.col].typ == op.existing)
    && (op.AddConstraint? ==> op.c.ForeignKey? || op.c.Check?)
  }

  /** Every statement of the script is undoable where it is reached. */
  predicate UndoableRun(ops: seq<Op>, d: Db)
  {
    ops == [] || (Apply(ops[0], d).Done? ==> Undoable(ops[0], d) && UndoableRun(ops[1..], Effect(ops[0], d)))
  }

  lemma RowsRestored(t: Table, c: string, v: Value)
    requires c !in t.columns && forall i :: 0 <= i < |t.rows| ==> t.rows[i].Keys == t.columns.Keys
    ensures WithoutColumn(WithColumn(t.rows, c, v), c) == t.rows
  {
    forall i | 0 <= i < |t.rows|
      ensures WithoutColumn(WithColumn(t.rows, c, v), c)[i] == t.rows[i]
    {
      assert c !in t.rows[i].Keys;
      assert t.rows[i][c := v] - {c} == t.rows[i];
    }
  }

  /** Nothing in a valid database mentions a column that does not exist. */
  lemma NothingMentions(d: Db, t: string, c: string)
    requires Valid(d) && t in d.tables && c !in d.tables[t].columns
    ensures ConstraintsWithout(d.tables[t].constraints, t, c) == d.tables[t].constraints
    ensures IndexesWithout(d.indexes, t, c) == d.indexes
    ensures !ReferencedElsewhere(d, t, Some(c))
  {
    hide Holds, RowFits;
    assert TableValid(d.tables, d.tables[t]);
    forall n | n in d.tables[t].constraints
      ensures c !in ColsOf(d.tables[t].constraints[n])
              && !(RefersTo(d.tables[t].constraints[n], t) && d.tables[t].constraints[n].refCol == c)
    {
      assert WellFormed(d.tables, d.tables[t].columns.Keys, d.tables[t].constraints[n]);
    }
    forall x | x in d.indexes
      ensures !(d.indexes[x].table == t && c in d.indexes[x].cols)
    {
      assert IndexValid(d.tables, d.indexes[x]);
    }
    forall u | u in d.tables && u != t
      ensures !PointsAt(d.tables[u], t, Some(c))
    {
      assert TableValid(d.tables, d.tables[u]);
      assert forall n :: n in d.tables[u].constraints ==>
               WellFormed(d.tables, d.tables[u].columns.Keys, d.tables[u].constraints[n]);
    }
  }

  lemma UndoAddColumn(t: string, c: string, def: Column, d: Db)
    requires Valid(d) && SchemaOk(AddColumn(t, c, def), d)
    ensures Apply(DropColumn(t, c), Effect(AddColumn(t, c, def), d)) == Done(d)
  {
    var table := d.tables[t];
    var d' := Effect(AddColumn(t, c, def), d);
    NothingMentions(d, t, c);
    assert TableValid(d.tables, table);
    assert forall i :: 0 <= i < |table.rows| ==> RowFits(table.rows[i], table.columns);
    RowsRestored(table, c, Fill(def));
    hide Valid, TableValid, Holds, WellFormed, ConstraintsWithout, IndexesWithout, WithoutColumn, WithColumn;
    assert !ReferencedElsewhere(d', t, Some(c)) by {
      forall u | u in d'.tables && u != t
        ensures !PointsAt(d'.tables[u], t, Some(c))
      {
        assert d'.tables[u] == d.tables[u];
      }
    }
    assert table.columns[c := def] - {c} == table.columns;
    assert d'.tables[t := table] == d.tables;
  }

  lemma UndoCreateTable(t: string, columns: map<string, Column>, constraints: map<string, Constraint>, d: Db)
    requires Valid(d) && SchemaOk(CreateTable(t, columns, constraints), d)
    ensures Apply(DropTable(t), Effect(CreateTable(t, columns, constraints), d)) == Done(d)
  {
    var d' := Effect(CreateTable(t, columns, constraints), d);
    assert !ReferencedElsewhere(d', t, None) by {
      forall u | u in d'.tables && u != t
        ensures !PointsAt(d'.tables[u], t, None)
      {
        assert TableValid(d.tables, d.tables[u]);
        assert forall n :: n in d.tables[u].constraints ==>
                 WellFormed(d.tables, d.tables[u].columns.Keys, d.tables[u].constraints[n]);
      }
    }
    forall x | x in d.indexes
      ensures d.indexes[x].table != t
    {
      assert IndexValid(d.tables, d.indexes[x]);
    }
    assert d'.tables - {t} == d.tables;
    assert IndexesOfOthers(d'.indexes, t) == d.indexes;
  }

  lemma UndoAlterType(t: string, c: string, existing: ColType, to: ColType, d: Db)
    requires Valid(d) && SchemaOk(AlterType(t, c, existing, to), d) && d.tables[t].columns[c].typ == existing
    ensures Apply(AlterType(t, c, to, existing), Effect(AlterType(t, c, existing, to), d)) == Done(d)
  {
    var table := d.tables[t];
    var d' := Effect(AlterType(t, c, existing, to), d);
    assert TableValid(d.tables, table);
    forall i | 0 <= i < |table.rows|
      ensures Conforms(Val(table.rows[i], c), table.columns[c])
    {
      assert RowFits(table.rows[i], table.columns);
    }
    hide Valid, TableValid, Holds, WellFormed, RowFits, Conforms;
    var back := d'.tables[t].columns[c].(typ := existing);
    assert back == table.columns[c];
    assert d'.tables[t].columns[c := back] == table.columns;
    assert d'.tables[t := table] == d.tables;
  }

  lemma UndoAddConstraint(n: string, t: string, c: Constraint, d: Db)
    requires Valid(d) && Works(AddConstraint(n, t, c), d) && Undoable(AddConstraint(n, t, c), d)
    ensures Run(Inverse(AddConstraint(n, t, c)), Effect(AddConstraint(n, t, c), d)) == Done(d)
  {
    var d' := Effect(AddConstraint(n, t, c), d);
    assert d'.tables[t].constraints - {n} == d.tables[t].constraints;
    assert d'.tables[t := d.tables[t]] == d.tables;
  }

  /** Taking back one statement restores the exact database. */
  lemma UndoOne(op: Op, d: Db)
    requires Valid(d) && Works(op, d) && Undoable(op, d)
    ensures Run(Inverse(op), Effect(op, d)) == Done(d)
  {
    var d' := Effect(op, d);
    match op
    case AlterType(t, c, existing, to) => UndoAlterType(t, c, existing, to, d);
    case AddColumn(t, c, def) => UndoAddColumn(t, c, def, d);
    case CreateTable(t, columns, constraints) => UndoCreateTable(t, columns, constraints, d);
    case CreateIndex(x, t, cols) =>
      assert d'.indexes - {x} == d.indexes;
    case AddConstraint(n, t, c) => UndoAddConstraint(n, t, c, d);
    case HaltIfAny(_, _, _) =>
  }

  lemma RunOne(op: Op, d: Db)
    ensures Run([op], d) == Apply(op, d)
  {
    hide Apply;
    assert [op][1..] == [];
  }

  /** Taking back a whole script in reverse order restores the exact database it started from. */
  lemma {:induction false} UndoScript(ops: seq<Op>, d: Db)
    requires Valid(d) && Run(ops, d).Done? && UndoableRun(ops, d)
    ensures Run(Inverses(ops), Run(ops, d).db) == Done(d)
  {
    hide Valid, SchemaOk, DataOk, Effect, Undoable, Inverse;
    if ops != [] {
      var next := Effect(ops[0], d);
      EffectValid(ops[0], d);
      UndoScript(ops[1..], next);
      UndoOne(ops[0], d);
      RunAppend(Inverses(ops[1..]), Inverse(ops[0]), Run(ops, d).db);
    }
  }

  // ---- schema and rows apart

  function Emptied(t: Table): Table
  {
    t.(rows := [])
  }

  /** The schema of a database: the same database without rows. */
  function Schema(d: Db): Db
  {
    d.(tables := map t | t in d.tables :: Emptied(d.tables[t]))
  }

  lemma SchemaReferences(d: Db, table: string, col: Option<string>)
    ensures ReferencedElsewhere(Schema(d), table, col) <==> ReferencedElsewhere(d, table, col)
  {
    var s := Schema(d);
    forall t | t in d.tables
      ensures PointsAt(s.tables[t], table, col) <==> PointsAt(d.tables[t], table, col)
    {
    }
    hide PointsAt;
  }

  /** Without rows nothing can fail on data, and whether the schema allows a statement never depends on rows. */
  lemma SchemaDecides(op: Op, d: Db)
    ensures SchemaOk(op, Schema(d)) <==> SchemaOk(op, d)
    ensures SchemaOk(op, d) ==> DataOk(op, Schema(d))
  {
    if op.DropColumn? {
      SchemaReferences(d, op.table, Some(op.col));
    } else if op.DropTable? {
      SchemaReferences(d, op.table, None);
    }
    hide ReferencedElsewhere, ColsOf;
  }

  lemma SchemaOfEffect(op: Op, d: Db)
    requires SchemaOk(op, d) && SchemaOk(op, Schema(d))
    ensures Schema(Effect(op, d)) == Effect(op, Schema(d))
  {
    hide ReferencedElsewhere, WellFormed;
    var a, b := Schema(Effect(op, d)), Effect(op, Schema(d));
    assert a.tables.Keys == b.tables.Keys;
    forall t | t in a.tables
      ensures a.tables[t] == b.tables[t]
    {
      if t in d.tables {
        assert Schema(d).tables[t] == Emptied(d.tables[t]);
      }
    }
    assert a.tables == b.tables;
  }

  /** Every statement of the script finds rows it can work with. */
  predicate DataOkRun(ops: seq<Op>, d: Db)
  {
    ops == [] || (SchemaOk(ops[0], d) ==> DataOk(ops[0], d) && DataOkRun(ops[1..], Effect(ops[0], d)))
  }

  /**
   Schema and rows can be judged apart: a script goes through exactly when it does on the empty schema
   and no statement stumbles over a row, and the schema it ends in does not depend on the rows.
   */
  lemma {:induction false} RunOnSchema(ops: seq<Op>, d: Db)
    ensures Run(ops, d).Done? <==> Run(ops, Schema(d)).Done? && DataOkRun(ops, d)
    ensures Run(ops, d).Done? ==> Run(ops, Schema(d)) == Done(Schema(Run(ops, d).db))
  {
    hide SchemaOk, DataOk, Effect, Schema;
    if ops != [] {
      SchemaDecides(ops[0], d);
      if SchemaOk(ops[0], d) {
        SchemaOfEffect(ops[0], d);
        RunOnSchema(ops[1..], Effect(ops[0], d));
      }
    }
  }

  lemma UndoableOnSchema(op: Op, d: Db)
    requires SchemaOk(op, d) && SchemaOk(op, Schema(d))
    ensures Undoable(op, Schema(d)) <==> Undoable(op, d)
  {
    hide ReferencedElsewhere, WellFormed;
  }

  lemma {:induction false} UndoableRunOnSchema(ops: seq<Op>, d: Db)
    requires Run(ops, d).Done? && UndoableRun(ops, Schema(d))
    ensures UndoableRun(ops, d)
  {
    hide SchemaOk, DataOk, Effect, Schema, Undoable;
    if ops != [] {
      SchemaDecides(ops[0], d);
      SchemaOfEffect(ops[0], d);
      UndoableOnSchema(ops[0], d);
      UndoableRunOnSchema(ops[1..], Effect(ops[0], d));
    }
  }
}
