/**
 The chain 0033 to 0044 on an empty schema of revision 0032: which tables, columns and names it needs
 to find, and that it then runs to its end.
 */
module FreshBuild {
  import opened Database
  import opened Preservation
  import opened Revisions
  import opened Scripts
  import opened ColumnTypes
  import opened Bases
  import opened Steps
  import opened Walks

  /** The table is there and has none of these columns yet. */
  predicate Lacks(d: Db, t: string, cols: seq<string>)
  {
    t in d.tables && forall c :: c in cols ==> c !in d.tables[t].columns
  }

  predicate LacksConstraint(d: Db, t: string, n: string)
  {
    t in d.tables && n !in d.tables[t].constraints
  }

  /** The columns 0037 adds to a table that 0034 has already extended. */
  const REVISION_COLUMNS: seq<string> := ["revision_attempt_no", "parent_revision_ref", "prior_validation_run_ref"]

  /** The columns a table is given, 0037 apart. */
  function Added(r: Relation): seq<string>
  {
    match r
    case Request => ["candidate_implementation"]
    case PackageRevision => ["implementation"]
    case Plan => ["max_total_exposure_percent", POLICY]
    case Publication => ["duplicate_override", "duplicate_of_document_id"]
    case BacktestRun => ["cancel_requested_at", CANCELLED_BY, "cancellation_reason"]
    case ImportJob => ["source_package_name"]
    case _ => []
  }

  /** What 0033 to 0044 alter, extend or refer to exists; the two columns they alter have any width. */
  predicate HasWhatIsNamed(d: Db)
  {
    && VarcharAt(d, REFERENCES, ROLE) && VarcharAt(d, EXPORT, EXPORT_TYPE)
    && HasColumn(d, REGISTRY, "entity_id") && HasColumn(d, REGISTRY, "owner_principal_id")
    && HasColumn(d, PRINCIPALS, "principal_id") && HasColumn(d, RUN, "run_id") && HasColumn(d, RESULT, "result_id")
    && HasColumn(d, STRATEGY, "current_revision_id") && HasColumn(d, STRATEGY, "rationale_family_id")
    && HasColumn(d, STRATEGY_REVISION, "revision_id") && HasColumn(d, FAMILY, "entity_id")
  }

  /** What they create does not. */
  predicate LacksWhatIsNew(d: Db)
  {
    && Lacks(d, REQUEST, Added(Request)) && Lacks(d, REQUEST, REVISION_COLUMNS)
    && Lacks(d, PACKAGE_REVISION, Added(PackageRevision))
    && Lacks(d, PLAN, Added(Plan)) && LacksConstraint(d, PLAN, POLICY_CHECK)
    && Lacks(d, PUBLICATION, Added(Publication))
    && Lacks(d, RUN, Added(BacktestRun)) && LacksConstraint(d, RUN, CANCEL_FK)
    && Lacks(d, IMPORT_JOB, Added(ImportJob))
    && LacksConstraint(d, REGISTRY, OWNER_FK)
    && LacksConstraint(d, STRATEGY, HEAD_FK) && LacksConstraint(d, STRATEGY, FAMILY_FK)
    && LINK !in d.tables && RUN_EVENT !in d.tables && EVENTS !in d.tables && CHECKSUMS !in d.tables
    && LINK_INDEX !in d.indexes && RUN_EVENT_INDEX !in d.indexes
    && EVENTS_INDEX !in d.indexes && CHECKSUMS_INDEX !in d.indexes
  }

  /** An empty, consistent schema with everything the chain names and nothing it creates. */
  predicate Fresh(base: Db)
  {
    Valid(base) && Schema(base) == base && HasWhatIsNamed(base) && LacksWhatIsNew(base)
  }

  // ---- scripts on an empty schema

  /** The databases an empty one goes through, each statement finding the schema it needs. */
  predicate StepByStep(ops: seq<Op>, ds: seq<Db>)
  {
    && |ds| == |ops| + 1
    && forall i :: 0 <= i < |ops| ==> SchemaOk(ops[i], ds[i]) && ds[i + 1] == Effect(ops[i], ds[i])
  }

  lemma {:induction false} StepsRun(ops: seq<Op>, ds: seq<Db>)
    requires StepByStep(ops, ds) && Schema(ds[0]) == ds[0]
    ensures Run(ops, ds[0]) == Done(ds[|ops|])
  {
    hide SchemaOk, Effect, DataOk, Schema;
    if ops != [] {
      SchemaDecides(ops[0], ds[0]);
      SchemaOfEffect(ops[0], ds[0]);
      assert SchemaOk(ops[0], ds[0]) && ds[1] == Effect(ops[0], ds[0]);
      forall i | 0 <= i < |ops[1..]|
        ensures SchemaOk(ops[1..][i], ds[1..][i]) && ds[1..][i + 1] == Effect(ops[1..][i], ds[1..][i])
      {
        assert ops[1..][i] == ops[i + 1] && ds[1..][i] == ds[i + 1] && ds[1..][i + 1] == ds[i + 2];
      }
      StepsRun(ops[1..], ds[1..]);
    }
  }

  lemma Runs33(d: Db)
    requires Schema(d) == d && HasColumn(d, REFERENCES, ROLE)
    ensures Run(Up33(), d).Done?
  {
    hide TableName, ROLE, Schema, Run;
    var u := Up33();
    StepsRun(u, [d, Effect(u[0], d)]);
  }

  lemma Runs40(d: Db)
    requires Schema(d) == d && HasColumn(d, EXPORT, EXPORT_TYPE)
    ensures Run(Up40(), d).Done?
  {
    hide TableName, EXPORT_TYPE, Schema, Run;
    var u := Up40();
    StepsRun(u, [d, Effect(u[0], d)]);
  }

  /** Adding a column that is not there yet. */
  lemma Adds(t: string, c: string, def: Column, d: Db) returns (next: Db)
    requires Lacks(d, t, [c])
    ensures SchemaOk(AddColumn(t, c, def), d) && next == Effect(AddColumn(t, c, def), d)
    ensures forall cols :: Lacks(d, t, cols) && c !in cols ==> Lacks(next, t, cols)
    ensures forall u :: u != t ==> (u in next.tables <==> u in d.tables)
    ensures forall u :: u != t && u in d.tables ==> next.tables[u] == d.tables[u]
    ensures HasColumn(next, t, c) && next.tables[t].constraints == d.tables[t].constraints && next.indexes == d.indexes
  {
    assert c in [c];
    next := Effect(AddColumn(t, c, def), d);
  }

  lemma LacksOne(d: Db, t: string, cols: seq<string>, c: string)
    requires Lacks(d, t, cols) && c in cols
    ensures Lacks(d, t, [c])
  {
  }

  lemma Runs34(d: Db)
    requires Schema(d) == d && Lacks(d, REQUEST, Added(Request)) && Lacks(d, REQUEST, REVISION_COLUMNS)
    requires Lacks(d, PACKAGE_REVISION, Added(PackageRevision))
    ensures Run(Up34(), d).Done? && Lacks(Run(Up34(), d).db, REQUEST, REVISION_COLUMNS)
  {
    TableNames();
    NewRequestColumn();
    hide TableName, REVISION_COLUMNS, Schema, Run, SchemaOk, Effect;
    var u := Up34();
    var d1 := Adds(REQUEST, "candidate_implementation", u[0].def, d);
    assert Lacks(d1, PACKAGE_REVISION, Added(PackageRevision));
    var d2 := Adds(PACKAGE_REVISION, "implementation", u[1].def, d1);
    StepsRun(u, [d, d1, d2]);
  }

  lemma NewRequestColumn()
    ensures "candidate_implementation" !in REVISION_COLUMNS
  {
    assert "candidate_implementation"[0] == 'c' && "prior_validation_run_ref"[0] == 'p';
  }

  lemma Runs35(d: Db, w: Widths)
    requires Schema(d) == d && Lacks(d, PLAN, Added(Plan)) && LacksConstraint(d, PLAN, POLICY_CHECK)
    ensures Run(Up35(w), d).Done?
    ensures HasColumn(Run(Up35(w), d).db, PLAN, POLICY) && LacksConstraint(Run(Up35(w), d).db, PLAN, POLICY_CHECK)
  {
    assert |"max_total_exposure_percent"| != |POLICY|;
    hide TableName, POLICY, ConstraintName, Schema, Run, SchemaOk, Effect;
    var u := Up35(w);
    LacksOne(d, PLAN, Added(Plan), "max_total_exposure_percent");
    var d1 := Adds(PLAN, "max_total_exposure_percent", u[0].def, d);
    LacksOne(d, PLAN, Added(Plan), POLICY);
    var d2 := Adds(PLAN, POLICY, u[1].def, d1);
    StepsRun(u, [d, d1, d2]);
  }

  lemma Runs36(d: Db)
    requires Schema(d) == d && Lacks(d, PUBLICATION, Added(Publication))
    ensures Run(Up36(), d).Done?
  {
    assert |"duplicate_override"| != |"duplicate_of_document_id"|;
    hide TableName, Schema, Run, SchemaOk, Effect;
    var u := Up36();
    LacksOne(d, PUBLICATION, Added(Publication), "duplicate_override");
    var d1 := Adds(PUBLICATION, "duplicate_override", u[0].def, d);
    LacksOne(d, PUBLICATION, Added(Publication), "duplicate_of_document_id");
    var d2 := Adds(PUBLICATION, "duplicate_of_document_id", u[1].def, d1);
    StepsRun(u, [d, d1, d2]);
  }

  lemma Runs42(d: Db)
    requires Schema(d) == d && Lacks(d, IMPORT_JOB, Added(ImportJob))
    ensures Run(Up42(), d).Done?
  {
    hide TableName, Schema, Run, SchemaOk, Effect;
    var u := Up42();
    var d1 := Adds(IMPORT_JOB, "source_package_name", u[0].def, d);
    StepsRun(u, [d, d1]);
  }

  /** Every constraint of the new table is over its own columns and refers to a column that exists. */
  predicate Creatable(d: Db, t: string, columns: map<string, Column>, constraints: map<string, Constraint>)
  {
    t !in d.tables && forall n :: n in constraints ==> WellFormed(d.tables, columns.Keys, constraints[n])
  }

  lemma CreatesIndexed(t: string, columns: map<string, Column>, constraints: map<string, Constraint>, x: string,
                       c: string, d: Db)
    returns (d1: Db, d2: Db)
    requires Creatable(d, t, columns, constraints) && x !in d.indexes && c in columns
    ensures SchemaOk(CreateTable(t, columns, constraints), d) && d1 == Effect(CreateTable(t, columns, constraints), d)
    ensures SchemaOk(CreateIndex(x, t, [c]), d1) && d2 == Effect(CreateIndex(x, t, [c]), d1)
    ensures d2.indexes == d.indexes[x := Index(t, [c])]
    ensures forall u :: u != t ==> (u in d2.tables <==> u in d.tables)
    ensures forall u :: u in d.tables ==> d2.tables[u] == d.tables[u]
  {
    d1 := Effect(CreateTable(t, columns, constraints), d);
    d2 := Effect(CreateIndex(x, t, [c]), d1);
  }

  lemma LinkCreatable(d: Db, w: Widths)
    requires LINK !in d.tables && HasColumn(d, REGISTRY, "entity_id") && HasColumn(d, PRINCIPALS, "principal_id")
    ensures Creatable(d, LINK, LinkColumns(w), LINK_CONSTRAINTS) && "request_entity_id" in LinkColumns(w)
  {
    hide TableName;
  }

  lemma RunEventCreatable(d: Db, w: Widths)
    requires RUN_EVENT !in d.tables && HasColumn(d, RUN, "run_id")
    ensures Creatable(d, RUN_EVENT, RunEventColumns(w), RUN_EVENT_CONSTRAINTS) && "run_id" in RunEventColumns(w)
  {
    hide TableName;
  }

  lemma EventsCreatable(d: Db)
    requires EVENTS !in d.tables && HasColumn(d, RESULT, "result_id")
    ensures Creatable(d, EVENTS, EVENTS_COLUMNS, EVENTS_CONSTRAINTS) && "result_id" in EVENTS_COLUMNS
  {
    hide TableName;
  }

  lemma ChecksumsCreatable(d: Db)
    requires CHECKSUMS !in d.tables && HasColumn(d, RESULT, "result_id")
    ensures Creatable(d, CHECKSUMS, CHECKSUMS_COLUMNS, CHECKSUMS_CONSTRAINTS) && "result_id" in CHECKSUMS_COLUMNS
  {
    hide TableName;
  }

  lemma AddsThree(t: string, a: string, b: string, c: string, da: Column, db: Column, dc: Column, d: Db)
    returns (d1: Db, d2: Db, d3: Db)
    requires Lacks(d, t, [a, b, c]) && a != b && a != c && b != c
    ensures SchemaOk(AddColumn(t, a, da), d) && d1 == Effect(AddColumn(t, a, da), d)
    ensures SchemaOk(AddColumn(t, b, db), d1) && d2 == Effect(AddColumn(t, b, db), d1)
    ensures SchemaOk(AddColumn(t, c, dc), d2) && d3 == Effect(AddColumn(t, c, dc), d2)
    ensures d3.indexes == d.indexes
    ensures forall u :: u in d3.tables <==> u in d.tables
    ensures forall u, x :: HasColumn(d, u, x) ==> HasColumn(d3, u, x)
    ensures HasColumn(d3, t, b) && d3.tables[t].constraints == d.tables[t].constraints
  {
    LacksOne(d, t, [a, b, c], a);
    LacksOne(d, t, [a, b, c], b);
    LacksOne(d, t, [a, b, c], c);
    d1 := Effect(AddColumn(t, a, da), d);
    d2 := Effect(AddColumn(t, b, db), d1);
    d3 := Effect(AddColumn(t, c, dc), d2);
  }

  lemma RevisionColumnsDiffer()
    ensures REVISION_COLUMNS[0] != REVISION_COLUMNS[1] && REVISION_COLUMNS[0] != REVISION_COLUMNS[2]
    ensures REVISION_COLUMNS[1] != REVISION_COLUMNS[2]
  {
    var a, b, c := REVISION_COLUMNS[0], REVISION_COLUMNS[1], REVISION_COLUMNS[2];
    assert a[1] == 'e' && b[1] == 'a' && |b| == |a| && |c| == |a| + 5;
  }

  lemma AddsKeepCreatable(t: string, c: string, def: Column, d: Db, table: string, columns: map<string, Column>,
                          constraints: map<string, Constraint>)
    requires SchemaOk(AddColumn(t, c, def), d) && Creatable(d, table, columns, constraints)
    ensures Creatable(Effect(AddColumn(t, c, def), d), table, columns, constraints)
  {
  }

  lemma ColumnsThenTable(t: string, a: string, b: string, c: string, da: Column, db: Column, dc: Column, table: string,
                         columns: map<string, Column>, constraints: map<string, Constraint>, x: string, col: string, d: Db)
    requires Schema(d) == d && Lacks(d, t, [a, b, c]) && a != b && a != c && b != c
    requires Creatable(d, table, columns, constraints) && x !in d.indexes && col in columns
    ensures Run([AddColumn(t, a, da), AddColumn(t, b, db), AddColumn(t, c, dc), CreateTable(table, columns, constraints),
                 CreateIndex(x, table, [col])], d).Done?
  {
    hide Schema, Run, SchemaOk, Effect, Creatable, Lacks;
    var d1, d2, d3 := AddsThree(t, a, b, c, da, db, dc, d);
    AddsKeepCreatable(t, a, da, d, table, columns, constraints);
    AddsKeepCreatable(t, b, db, d1, table, columns, constraints);
    AddsKeepCreatable(t, c, dc, d2, table, columns, constraints);
    var adds, creates := [AddColumn(t, a, da), AddColumn(t, b, db), AddColumn(t, c, dc)],
                         [CreateTable(table, columns, constraints), CreateIndex(x, table, [col])];
    StepsRun(adds, [d, d1, d2, d3]);
    RunOnSchema(adds, d);
    var d5 := OneTable(table, columns, constraints, x, col, d3);
    RunAppend(adds, creates, d);
    assert adds + creates == [adds[0], adds[1], adds[2], creates[0], creates[1]];
  }

  lemma Runs37(d: Db, w: Widths)
    requires Schema(d) == d && Lacks(d, REQUEST, REVISION_COLUMNS) && LINK !in d.tables && LINK_INDEX !in d.indexes
    requires HasColumn(d, REGISTRY, "entity_id") && HasColumn(d, PRINCIPALS, "principal_id")
    ensures Run(Up37(w), d).Done?
  {
    RevisionColumnsDiffer();
    var a, b, c := REVISION_COLUMNS[0], REVISION_COLUMNS[1], REVISION_COLUMNS[2];
    assert REVISION_COLUMNS == [a, b, c];
    LinkCreatable(d, w);
    hide TableName, IndexName, LinkColumns, LINK_CONSTRAINTS, Schema, Run, Creatable, Lacks;
    var integer, text := Column(Integer, false, Literal(Int(1))), Nullable(Varchar(40));
    ColumnsThenTable(REQUEST, a, b, c, integer, text, text, LINK, LinkColumns(w), LINK_CONSTRAINTS, LINK_INDEX,
                     "request_entity_id", d);
  }

  lemma Runs38(d: Db, w: Widths)
    requires Schema(d) == d && RUN_EVENT !in d.tables && HasColumn(d, RUN, "run_id") && RUN_EVENT_INDEX !in d.indexes
    ensures Run(Up38(w), d).Done?
  {
    hide TableName, IndexName, RunEventColumns, RUN_EVENT_CONSTRAINTS, Schema, Run, SchemaOk, Effect, Creatable;
    var u := Up38(w);
    RunEventCreatable(d, w);
    var d1, d2 := CreatesIndexed(RUN_EVENT, RunEventColumns(w), RUN_EVENT_CONSTRAINTS, RUN_EVENT_INDEX, "run_id", d);
    StepsRun(u, [d, d1, d2]);
  }

  lemma OneTable(t: string, columns: map<string, Column>, constraints: map<string, Constraint>, x: string, c: string, d: Db)
    returns (after: Db)
    requires Schema(d) == d && Creatable(d, t, columns, constraints) && x !in d.indexes && c in columns
    ensures Run([CreateTable(t, columns, constraints), CreateIndex(x, t, [c])], d) == Done(after) && Schema(after) == after
    ensures after.indexes == d.indexes[x := Index(t, [c])]
    ensures forall u :: u != t ==> (u in after.tables <==> u in d.tables)
    ensures forall u :: u in d.tables ==> after.tables[u] == d.tables[u]
  {
    hide Schema, Run, SchemaOk, Effect, Creatable;
    var d1;
    d1, after := CreatesIndexed(t, columns, constraints, x, c, d);
    var ops := [CreateTable(t, columns, constraints), CreateIndex(x, t, [c])];
    StepsRun(ops, [d, d1, after]);
    RunOnSchema(ops, d);
  }

  lemma TwoTables(t: string, tc: map<string, Column>, tn: map<string, Constraint>, x: string,
                  u: string, uc: map<string, Column>, un: map<string, Constraint>, y: string, col: string, d: Db)
    requires Schema(d) == d && Creatable(d, t, tc, tn) && Creatable(d, u, uc, un) && t != u && x != y
    requires x !in d.indexes && y !in d.indexes && col in tc && col in uc
    ensures Run([CreateTable(t, tc, tn), CreateIndex(x, t, [col]), CreateTable(u, uc, un), CreateIndex(y, u, [col])], d).Done?
  {
    assert u !in d.tables;
    hide Schema, Run, Creatable;
    var d2 := OneTable(t, tc, tn, x, col, d);
    StillCreatable(d, d2, u, uc, un);
    var d4 := OneTable(u, uc, un, y, col, d2);
    var first, second := [CreateTable(t, tc, tn), CreateIndex(x, t, [col])], [CreateTable(u, uc, un), CreateIndex(y, u, [col])];
    RunAppend(first, second, d);
    assert first + second == [first[0], first[1], second[0], second[1]];
  }

  lemma StillCreatable(d: Db, after: Db, u: string, columns: map<string, Column>, constraints: map<string, Constraint>)
    requires Creatable(d, u, columns, constraints) && u !in after.tables
    requires forall t :: t in d.tables ==> t in after.tables && after.tables[t] == d.tables[t]
    ensures Creatable(after, u, columns, constraints)
  {
  }

  lemma Runs41(d: Db)
    requires Schema(d) == d && EVENTS !in d.tables && CHECKSUMS !in d.tables && HasColumn(d, RESULT, "result_id")
    requires EVENTS_INDEX !in d.indexes && CHECKSUMS_INDEX !in d.indexes
    ensures Run(Up41(), d).Done?
  {
    TableNames();
    IndexStages();
    hide TableName, IndexName, EVENTS_COLUMNS, EVENTS_CONSTRAINTS, CHECKSUMS_COLUMNS, CHECKSUMS_CONSTRAINTS, Schema,
      Run, Creatable;
    EventsCreatable(d);
    ChecksumsCreatable(d);
    TwoTables(EVENTS, EVENTS_COLUMNS, EVENTS_CONSTRAINTS, EVENTS_INDEX, CHECKSUMS, CHECKSUMS_COLUMNS,
              CHECKSUMS_CONSTRAINTS, CHECKSUMS_INDEX, "result_id", d);
  }

  lemma EdgeWellFormed(d: Db, t: string, col: string, target: string, targetCol: string)
    requires HasColumn(d, t, col) && HasColumn(d, target, targetCol)
    ensures WellFormed(d.tables, d.tables[t].columns.Keys, ForeignKey(col, target, targetCol))
  {
  }

  lemma Runs39(d: Db)
    requires Schema(d) == d && Lacks(d, RUN, Added(BacktestRun))
    requires LacksConstraint(d, RUN, CANCEL_FK) && HasColumn(d, PRINCIPALS, "principal_id")
    ensures Run(Up39(), d).Done?
  {
    CancelColumnsDiffer();
    var a, c := Added(BacktestRun)[0], Added(BacktestRun)[2];
    assert Added(BacktestRun) == [a, CANCELLED_BY, c];
    var u := Up39();
    var edge := u[3].c;
    assert u == [AddColumn(RUN, a, u[0].def), AddColumn(RUN, CANCELLED_BY, u[1].def), AddColumn(RUN, c, u[2].def),
                 AddConstraint(CANCEL_FK, RUN, edge)];
    hide TableName, CANCELLED_BY, ConstraintName, Added, Schema, Run, SchemaOk, Effect, WellFormed, Up39, Lacks;
    var d1, d2, d3 := AddsThree(RUN, a, CANCELLED_BY, c, u[0].def, u[1].def, u[2].def, d);
    EdgeWellFormed(d3, RUN, CANCELLED_BY, PRINCIPALS, "principal_id");
    assert SchemaOk(AddConstraint(CANCEL_FK, RUN, edge), d3) by {
      Constrains(CANCEL_FK, RUN, edge, d3);
    }
    var d4 := Effect(AddConstraint(CANCEL_FK, RUN, edge), d3);
    StepsRun(u, [d, d1, d2, d3, d4]);
  }

  lemma CancelColumnsDiffer()
    ensures Added(BacktestRun)[0] != CANCELLED_BY && CANCELLED_BY != Added(BacktestRun)[2]
    ensures Added(BacktestRun)[0] != Added(BacktestRun)[2]
  {
    var a, b, c := Added(BacktestRun)[0], Added(BacktestRun)[1], Added(BacktestRun)[2];
    assert |a| == 19 && |b| == 32 && |c| == 19 && a[6] == '_' && c[6] == 'l';
  }

  /** A constraint under a new name over columns that exist can be added. */
  lemma Constrains(n: string, t: string, c: Constraint, d: Db)
    requires LacksConstraint(d, t, n) && WellFormed(d.tables, d.tables[t].columns.Keys, c)
    ensures SchemaOk(AddConstraint(n, t, c), d)
  {
  }

  /** Constraints under different names do not get in each other's way. */
  lemma ConstrainsBoth(a: Op, b: Op, d: Db)
    requires a.AddConstraint? && SchemaOk(a, d) && b.AddConstraint? && SchemaOk(b, d)
    requires a.table != b.table || a.name != b.name
    ensures SchemaOk(b, Effect(a, d))
  {
    KeptWellFormedUp(a, d, b.table, b.c);
    hide WellFormed;
  }

  lemma Runs43(d: Db)
    requires Schema(d) == d && LacksConstraint(d, REGISTRY, OWNER_FK)
    requires LacksConstraint(d, STRATEGY, HEAD_FK) && LacksConstraint(d, STRATEGY, FAMILY_FK)
    requires HasColumn(d, REGISTRY, "owner_principal_id") && HasColumn(d, PRINCIPALS, "principal_id")
    requires HasColumn(d, STRATEGY, "current_revision_id") && HasColumn(d, STRATEGY, "rationale_family_id")
    requires HasColumn(d, STRATEGY_REVISION, "revision_id") && HasColumn(d, FAMILY, "entity_id")
    ensures Run(Up43(), d).Done?
  {
    EdgeNames();
    hide TableName, ConstraintName, Schema, Run, SchemaOk, Effect, WellFormed, HasColumn, LacksConstraint;
    var u := Up43();
    EdgeWellFormed(d, REGISTRY, "owner_principal_id", PRINCIPALS, "principal_id");
    Constrains(OWNER_FK, REGISTRY, OWNER_EDGE, d);
    EdgeWellFormed(d, STRATEGY, "current_revision_id", STRATEGY_REVISION, "revision_id");
    Constrains(HEAD_FK, STRATEGY, HEAD_EDGE, d);
    EdgeWellFormed(d, STRATEGY, "rationale_family_id", FAMILY, "entity_id");
    Constrains(FAMILY_FK, STRATEGY, FAMILY_EDGE, d);
    hide OWNER_EDGE, HEAD_EDGE, FAMILY_EDGE;
    assert u == [u[0], u[1], u[2]];
    RunsEdges(u[0], u[1], u[2], d);
  }

  lemma RunsEdges(a: Op, b: Op, c: Op, d: Db)
    requires Schema(d) == d && a.AddConstraint? && b.AddConstraint? && c.AddConstraint?
    requires SchemaOk(a, d) && SchemaOk(b, d) && SchemaOk(c, d)
    requires a.table != b.table && a.table != c.table && b.name != c.name
    ensures Run([a, b, c], d).Done?
  {
    hide Schema, Run;
    var d1 := Effect(a, d);
    ConstrainsBoth(a, b, d);
    ConstrainsBoth(a, c, d);
    var d2 := Effect(b, d1);
    ConstrainsBoth(b, c, d1);
    hide SchemaOk, Effect;
    StepsRun([a, b, c], [d, d1, d2, Effect(c, d2)]);
  }

  lemma EdgeNames()
    ensures HEAD_FK != FAMILY_FK && REGISTRY != STRATEGY
  {
    assert HEAD_FK[14] == 'c' && FAMILY_FK[14] == 'r';
  }

  lemma Runs44(d: Db)
    requires Schema(d) == d && HasColumn(d, PLAN, POLICY) && LacksConstraint(d, PLAN, POLICY_CHECK)
    ensures Run(Up44(), d).Done?
  {
    hide TableName, POLICY, ConstraintName, ALLOWED, REMOVED, Schema, Run;
    var u := Up44();
    Constrains(POLICY_CHECK, PLAN, Check(POLICY, ALLOWED), d);
    StepsRun(u, [d, d, d, Effect(u[2], d)]);
  }

  // ---- the stage at which a table is first touched

  lemma TableNames()
    ensures |REFERENCES| == 28 && |REQUEST| == 15 && |PACKAGE_REVISION| == 16 && |PLAN| == 25 && |PUBLICATION| == 25
            && |LINK| == 21 && |RUN_EVENT| == 18 && |RUN| == 12 && |EXPORT| == 15 && |EVENTS| == 14 && |CHECKSUMS| == 24
            && |IMPORT_JOB| == 18 && |REGISTRY| == 15 && |STRATEGY| == 13 && |PRINCIPALS| == 10 && |RESULT| == 15
            && |STRATEGY_REVISION| == 17 && |FAMILY| == 21
    ensures REQUEST[0] == 'p' && EXPORT[..2] == "ex" && REGISTRY[..2] == "en" && RESULT[0] == 'b'
    ensures PLAN[0] == 'p' && PUBLICATION[0] == 'm' && LINK[0] == 'p' && FAMILY[0] == 'r'
    ensures RUN_EVENT[0] == 'b' && IMPORT_JOB[0] == 'p'
  {
  }

  function Stage(t: string): int
  {
    if t == REFERENCES then 33 else if t == REQUEST || t == PACKAGE_REVISION then 34 else if t == PLAN then 35
    else if t == PUBLICATION then 36 else if t == LINK then 37 else if t == RUN_EVENT then 38 else if t == RUN then 39
    else if t == EXPORT then 40 else if t == EVENTS || t == CHECKSUMS then 41 else if t == IMPORT_JOB then 42
    else if t == REGISTRY || t == STRATEGY then 43 else 44
  }

  lemma Stages()
    ensures Stage(REFERENCES) == 33 && Stage(REQUEST) == Stage(PACKAGE_REVISION) == 34 && Stage(PLAN) == 35
    ensures Stage(PUBLICATION) == 36 && Stage(LINK) == 37 && Stage(RUN_EVENT) == 38 && Stage(RUN) == 39
    ensures Stage(EXPORT) == 40 && Stage(EVENTS) == Stage(CHECKSUMS) == 41 && Stage(IMPORT_JOB) == 42
    ensures Stage(REGISTRY) == Stage(STRATEGY) == 43
    ensures Stage(PRINCIPALS) == Stage(RESULT) == Stage(STRATEGY_REVISION) == Stage(FAMILY) == 44
  {
    TableNames();
    assert EXPORT[1] == EXPORT[..2][1] == 'x' && REGISTRY[1] == REGISTRY[..2][1] == 'n';
    assert EXPORT[0] == EXPORT[..2][0] == 'e' && REGISTRY[0] == REGISTRY[..2][0] == 'e';
    hide TableName;
  }

  function IndexStage(x: string): int
  {
    if x == LINK_INDEX then 37 else if x == RUN_EVENT_INDEX then 38
    else if x == EVENTS_INDEX || x == CHECKSUMS_INDEX then 41 else 44
  }

  lemma IndexStages()
    ensures IndexStage(LINK_INDEX) == 37 && IndexStage(RUN_EVENT_INDEX) == 38
    ensures IndexStage(EVENTS_INDEX) == IndexStage(CHECKSUMS_INDEX) == 41 && EVENTS_INDEX != CHECKSUMS_INDEX
  {
    assert |LINK_INDEX| == 42 && |RUN_EVENT_INDEX| == 28 && |EVENTS_INDEX| == 27 && |CHECKSUMS_INDEX| == 37;
    hide IndexName;
  }

  /** The statement changes this table, or creates this index. */
  predicate Changes(op: Op, t: string)
  {
    (op.AlterType? || op.AddColumn? || op.CreateTable? || op.AddConstraint?) && op.table == t
  }

  predicate Creates(op: Op, x: string)
  {
    op.CreateIndex? && op.name == x
  }

  lemma {:induction false} TableKept(ops: seq<Op>, d: Db, t: string)
    requires AllUp(ops) && Run(ops, d).Done? && forall op :: op in ops ==> !Changes(op, t)
    ensures Same(Run(ops, d).db, d, t)
  {
    if ops != [] {
      assert ops[0] in ops && IsUp(ops[0]) && !Changes(ops[0], t);
      assert Same(Effect(ops[0], d), d, t);
      hide SchemaOk, Effect, DataOk, Changes;
      TableKept(ops[1..], Apply(ops[0], d).db, t);
    }
  }

  lemma {:induction false} IndexKept(ops: seq<Op>, d: Db, x: string)
    requires AllUp(ops) && Run(ops, d).Done? && forall op :: op in ops ==> !Creates(op, x)
    ensures x in Run(ops, d).db.indexes <==> x in d.indexes
  {
    if ops != [] {
      assert ops[0] in ops && IsUp(ops[0]) && !Creates(ops[0], x);
      assert x in Effect(ops[0], d).indexes <==> x in d.indexes;
      hide SchemaOk, Effect, DataOk, Creates;
      IndexKept(ops[1..], Apply(ops[0], d).db, x);
    }
  }

  /** The table is the same in both, or in neither. */
  predicate Same(d: Db, base: Db, t: string)
  {
    (t in d.tables <==> t in base.tables) && (t in base.tables ==> d.tables[t] == base.tables[t])
  }

  /** Each revision touches the tables and indexes of its own stage, and two return to a table. */
  predicate OnStage(t: string, k: int)
  {
    Stage(t) == k || (k == 37 && t == REQUEST) || (k == 44 && t == PLAN)
  }

  predicate Touches(ops: seq<Op>, k: int)
  {
    && (forall op :: op in ops && (op.AlterType? || op.AddColumn? || op.CreateTable? || op.AddConstraint?) ==>
          OnStage(op.table, k))
    && (forall op :: op in ops && op.CreateIndex? ==> IndexStage(op.name) == k)
  }

  lemma CreatingTouches(k: int, w: Widths)
    requires k == 37 || k == 38 || k == 41
    ensures Touches(Up(k, w), k)
  {
    Stages();
    IndexStages();
    hide Stage, IndexStage, TableName, IndexName, LinkColumns, LINK_CONSTRAINTS, RunEventColumns, RUN_EVENT_CONSTRAINTS,
      EVENTS_COLUMNS, EVENTS_CONSTRAINTS, CHECKSUMS_COLUMNS, CHECKSUMS_CONSTRAINTS, Nullable, Up33, Up34,
      Up35, Up36, Up39, Up40, Up42, Up43, Up44;
  }

  lemma AlteringTouches(k: int, w: Widths)
    requires FIRST < k <= HEAD && k != 37 && k != 38 && k != 41
    ensures Touches(Up(k, w), k)
  {
    Stages();
    hide Stage, IndexStage, TableName, ConstraintName, OWNER_EDGE, HEAD_EDGE, FAMILY_EDGE, ALLOWED, REMOVED;
  }

  lemma ScriptTouches(k: int, w: Widths)
    requires FIRST < k <= HEAD
    ensures Touches(Up(k, w), k)
  {
    hide Touches, Up;
    if k == 37 || k == 38 || k == 41 {
      CreatingTouches(k, w);
    } else {
      AlteringTouches(k, w);
    }
  }

  /** What 0034 and 0035 leave for the later revisions of the same tables. */
  predicate Prepared(k: int, d: Db)
  {
    && (34 <= k < 37 ==> Lacks(d, REQUEST, REVISION_COLUMNS))
    && (35 <= k < 44 ==> HasColumn(d, PLAN, POLICY) && LacksConstraint(d, PLAN, POLICY_CHECK))
  }

  /** What the revisions after `k` need is still as the schema of 0032 has it. */
  ghost predicate Ahead(k: int, d: Db, base: Db)
  {
    && Schema(d) == d && Prepared(k, d)
    && (forall t :: Stage(t) > k ==> Same(d, base, t))
    && (forall x :: IndexStage(x) > k ==> (x in d.indexes <==> x in base.indexes))
  }

  /** What the two preparing revisions add themselves. */
  predicate PreparedBy(k: int, d: Db)
  {
    && (k == 34 ==> Lacks(d, REQUEST, REVISION_COLUMNS))
    && (k == 35 ==> HasColumn(d, PLAN, POLICY) && LacksConstraint(d, PLAN, POLICY_CHECK))
  }

  lemma SameFacts(d: Db, base: Db)
    ensures forall t, cols :: Same(d, base, t) && Lacks(base, t, cols) ==> Lacks(d, t, cols)
    ensures forall t, c :: Same(d, base, t) && HasColumn(base, t, c) ==> HasColumn(d, t, c)
    ensures forall t, n :: Same(d, base, t) && LacksConstraint(base, t, n) ==> LacksConstraint(d, t, n)
    ensures forall t :: Same(d, base, t) && t !in base.tables ==> t !in d.tables
  {
  }

  lemma StepGoes(k: int, d: Db, base: Db, w: Widths)
    requires Fresh(base) && FIRST <= k < HEAD && Ahead(k, d, base)
    ensures Run(Up(k + 1, w), d).Done? && PreparedBy(k + 1, Run(Up(k + 1, w), d).db)
  {
    Stages();
    IndexStages();
    SameFacts(d, base);
    hide Stage, IndexStage, TableName, IndexName, ConstraintName, Added, REVISION_COLUMNS, ROLE, EXPORT_TYPE, POLICY,
      Lacks, LacksConstraint, HasColumn, Same, Schema, Valid, Run,
      Up33, Up34, Up35, Up36, Up37, Up38, Up39, Up40, Up41, Up42, Up43, Up44;
    match k + 1
    case 33 => Runs33(d);
    case 34 => Runs34(d);
    case 35 => Runs35(d, w);
    case 36 => Runs36(d);
    case 37 => Runs37(d, w);
    case 38 => Runs38(d, w);
    case 39 => Runs39(d);
    case 40 => Runs40(d);
    case 41 => Runs41(d);
    case 42 => Runs42(d);
    case 43 => Runs43(d);
    case 44 => Runs44(d);
  }

  /** A script leaves alone every table and index that is not on its stage. */
  lemma Frame(k: int, d: Db, w: Widths)
    requires FIRST < k <= HEAD && Run(Up(k, w), d).Done?
    ensures var after := Run(Up(k, w), d).db;
            && (forall t :: !OnStage(t, k) ==> Same(after, d, t))
            && (forall x :: IndexStage(x) != k ==> (x in after.indexes <==> x in d.indexes))
  {
    ScriptTouches(k, w);
    DownUndoesUp(k, w);
    hide OnStage, IndexStage, Run, Up, Down, Inverses, AllUp, AllDown, Same;
    var ops := Up(k, w);
    forall t | !OnStage(t, k)
      ensures Same(Run(ops, d).db, d, t)
    {
      TableKept(ops, d, t);
    }
    forall x | IndexStage(x) != k
      ensures x in Run(ops, d).db.indexes <==> x in d.indexes
    {
      IndexKept(ops, d, x);
    }
  }

  lemma StaysPrepared(k: int, d: Db, after: Db)
    requires FIRST <= k < HEAD && Prepared(k, d) && PreparedBy(k + 1, after)
    requires forall t :: !OnStage(t, k + 1) ==> Same(after, d, t)
    ensures Prepared(k + 1, after)
  {
    Stages();
    hide Stage, TableName, POLICY, ConstraintName, REVISION_COLUMNS;
    assert 34 < k + 1 < 37 ==> Same(after, d, REQUEST);
    assert 35 < k + 1 < 44 ==> Same(after, d, PLAN);
  }

  lemma StaysAhead(k: int, d: Db, base: Db, w: Widths)
    requires Fresh(base) && FIRST <= k < HEAD && Ahead(k, d, base)
    ensures Run(Up(k + 1, w), d).Done? && Ahead(k + 1, Run(Up(k + 1, w), d).db, base)
  {
    hide Fresh, Ahead, Run, Up, Schema, PreparedBy, Prepared, OnStage, IndexStage, Same;
    StepGoes(k, d, base, w);
    var after := Run(Up(k + 1, w), d).db;
    Frame(k + 1, d, w);
    AheadFacts(k, d, base);
    StaysPrepared(k, d, after);
    RunOnSchema(Up(k + 1, w), d);
    LaterSame(k, d, after, base);
  }

  lemma AheadFacts(k: int, d: Db, base: Db)
    requires Ahead(k, d, base)
    ensures Schema(d) == d && Prepared(k, d)
  {
    hide Schema, Prepared;
  }

  lemma LaterSame(k: int, d: Db, after: Db, base: Db)
    requires FIRST <= k < HEAD && Ahead(k, d, base) && Schema(after) == after && Prepared(k + 1, after)
    requires forall t :: !OnStage(t, k + 1) ==> Same(after, d, t)
    requires forall x :: IndexStage(x) != k + 1 ==> (x in after.indexes <==> x in d.indexes)
    ensures Ahead(k + 1, after, base)
  {
    Stages();
    hide Stage, IndexStage, TableName, Schema, Prepared;
    forall t | Stage(t) > k + 1
      ensures Same(after, base, t)
    {
      assert Same(after, d, t) && Same(d, base, t);
    }
  }

  lemma {:induction false} BuildsUpTo(k: int, base: Db, w: Widths)
    requires Fresh(base) && FIRST <= k <= HEAD
    ensures SchemaAt(k, base, w).Done? && Ahead(k, SchemaAt(k, base, w).db, base)
    decreases k
  {
    hide Fresh, Ahead, Run, Up;
    if k == FIRST {
      StartsAhead(base);
    } else {
      BuildsUpTo(k - 1, base, w);
      StaysAhead(k - 1, SchemaAt(k - 1, base, w).db, base, w);
    }
  }

  lemma StartsAhead(base: Db)
    requires Fresh(base)
    ensures Ahead(FIRST, base, base)
  {
    hide Stage, IndexStage, Valid, Schema, HasWhatIsNamed, LacksWhatIsNew;
  }

  /** On every such schema the whole chain runs, so every walk over the revisions can start from one. */
  lemma FreshSchemaIsBase(base: Db, w: Widths)
    requires Fresh(base)
    ensures IsBase(base, w)
  {
    hide SchemaAt, LacksWhatIsNew, Ahead, Schema, Valid, VarcharAt;
    forall k | FIRST <= k <= HEAD
      ensures SchemaAt(k, base, w).Done?
    {
      BuildsUpTo(k, base, w);
    }
  }

  // ---- such schemas exist

  const TABLES: set<string> :=
    {REFERENCES, REQUEST, PACKAGE_REVISION, PLAN, PUBLICATION, RUN, EXPORT, IMPORT_JOB, REGISTRY, PRINCIPALS, RESULT,
     STRATEGY, STRATEGY_REVISION, FAMILY}

  /** The columns named of a table; the two altered ones have the given widths. */
  function ColumnsOf(t: string, roleWidth: nat, exportWidth: nat): map<string, Column>
  {
    var text := Nullable(Varchar(40));
    if t == REFERENCES then map[ROLE := Required(Varchar(roleWidth))]
    else if t == EXPORT then map[EXPORT_TYPE := Required(Varchar(exportWidth))]
    else if t == REGISTRY then map["entity_id" := text, "owner_principal_id" := text]
    else if t == PRINCIPALS then map["principal_id" := text]
    else if t == RUN then map["run_id" := text]
    else if t == RESULT then map["result_id" := text]
    else if t == STRATEGY then map["current_revision_id" := text, "rationale_family_id" := text]
    else if t == STRATEGY_REVISION then map["revision_id" := text]
    else if t == FAMILY then map["entity_id" := text]
    else map[]
  }

  function Smallest(roleWidth: nat, exportWidth: nat): Db
  {
    Db(map t | t in TABLES :: Table(ColumnsOf(t, roleWidth, exportWidth), map[], []), map[])
  }

  lemma SmallestHas(roleWidth: nat, exportWidth: nat)
    ensures HasWhatIsNamed(Smallest(roleWidth, exportWidth))
  {
    TableNames();
    Stages();
    hide Stage, TableName, ROLE, EXPORT_TYPE;
  }

  lemma NewColumns()
    ensures "run_id" !in Added(BacktestRun)
  {
    assert |"run_id"| == 6 && |Added(BacktestRun)[0]| == 19 && |Added(BacktestRun)[1]| == 32 && |Added(BacktestRun)[2]| == 19;
  }

  /** The tables that only gain columns start without any. */
  lemma BareTables(roleWidth: nat, exportWidth: nat)
    ensures ColumnsOf(REQUEST, roleWidth, exportWidth) == ColumnsOf(PACKAGE_REVISION, roleWidth, exportWidth) == map[]
    ensures ColumnsOf(PLAN, roleWidth, exportWidth) == ColumnsOf(PUBLICATION, roleWidth, exportWidth) == map[]
    ensures ColumnsOf(IMPORT_JOB, roleWidth, exportWidth) == map[]
    ensures ColumnsOf(RUN, roleWidth, exportWidth).Keys == {"run_id"}
  {
    TableNames();
    Stages();
    hide Stage, TableName, EXPORT_TYPE, ROLE;
  }

  lemma NewTables()
    ensures LINK !in TABLES && RUN_EVENT !in TABLES && EVENTS !in TABLES && CHECKSUMS !in TABLES
  {
    Stages();
    hide Stage, TableName;
  }

  lemma SmallestLacks(roleWidth: nat, exportWidth: nat)
    ensures LacksWhatIsNew(Smallest(roleWidth, exportWidth))
  {
    BareTables(roleWidth, exportWidth);
    NewTables();
    NewColumns();
    hide ColumnsOf, TableName, Added, REVISION_COLUMNS, ConstraintName, IndexName;
  }

  lemma SmallestIsValid(roleWidth: nat, exportWidth: nat)
    ensures Valid(Smallest(roleWidth, exportWidth))
    ensures Schema(Smallest(roleWidth, exportWidth)) == Smallest(roleWidth, exportWidth)
  {
    hide ColumnsOf, TABLES;
    assert Schema(Smallest(roleWidth, exportWidth)).tables == Smallest(roleWidth, exportWidth).tables;
  }

  /** A schema of 0032 with the named tables and columns and nothing else is one the chain runs on. */
  lemma SmallestIsBase(roleWidth: nat, exportWidth: nat, w: Widths)
    ensures IsBase(Smallest(roleWidth, exportWidth), w)
    ensures IsAt(FIRST, Smallest(roleWidth, exportWidth), Smallest(roleWidth, exportWidth), w)
  {
    SmallestHas(roleWidth, exportWidth);
    SmallestLacks(roleWidth, exportWidth);
    SmallestIsValid(roleWidth, exportWidth);
    hide Smallest, HasWhatIsNamed, LacksWhatIsNew, Valid, Schema;
    FreshSchemaIsBase(Smallest(roleWidth, exportWidth), w);
    hide IsBase;
  }

  /** The widths today's enums give: `protection_stop_indicator` and `pinescript_signal_marker`. */
  const LIVE_ROLE: nat := 25
  const LIVE_EXPORT: nat := 24

  lemma LiveWidths(base: Db)
    requires base == Smallest(LIVE_ROLE, LIVE_EXPORT)
    ensures HasAltered(base) && !DeclaredWidth(33, base) && !DeclaredWidth(40, base)
  {
    SmallestHas(LIVE_ROLE, LIVE_EXPORT);
    TableNames();
    Stages();
    hide Stage, TableName, ROLE, EXPORT_TYPE;
  }

  /**
   A fresh build has the live widths from 0009 and 0015 on. There 0033 goes up and down again, but what
   comes back is not what was there: the column is narrower. So it is for the whole chain.
   */
  lemma FreshBuildNotRestored(w: Widths)
    ensures var base := Smallest(LIVE_ROLE, LIVE_EXPORT);
            && IsBase(base, w) && IsAt(FIRST, base, base, w)
            && Run(Up(33, w), base).Done? && Run(Down(33), Run(Up(33, w), base).db) == Done(Redeclared(33, base))
            && Redeclared(33, base) != base
            && UpTo(FIRST, HEAD, w, base).Done? && DownTo(HEAD, FIRST, UpTo(FIRST, HEAD, w, base).db) != Done(base)
  {
    var base := Smallest(LIVE_ROLE, LIVE_EXPORT);
    SmallestIsBase(LIVE_ROLE, LIVE_EXPORT, w);
    SmallestIsValid(LIVE_ROLE, LIVE_EXPORT);
    LiveWidths(base);
    hide Smallest, IsBase, IsAt, Run, Up, Down, Redeclared, DeclaredWidth, HasAltered, DownCondition, NoneLonger, Valid;
    EmptyGoesUp(FIRST, base, w);
    SchemaStep(base, w);
    DownAfterUp(FIRST, base, base, w);
    NothingLonger(33, base);
    RedeclaredSameExactly(33, base);
    ThereAndBack(FIRST, HEAD, base, base, w);
    assert DeclaredBetween(FIRST, HEAD, base) ==> DeclaredWidth(33, base);
  }

  lemma SchemaStep(base: Db, w: Widths)
    requires IsBase(base, w)
    ensures Run(Up(33, w), base) == SchemaAt(33, base, w) && SchemaAt(33, base, w).Done?
  {
    ReachedSchema(33, base, w);
    hide Run, Up, IsBase;
    assert SchemaAt(FIRST, base, w) == Done(base);
  }

  lemma NothingLonger(k: int, base: Db)
    requires Schema(base) == base && HasAltered(base)
    ensures DownCondition(k, base)
  {
    hide Schema, REFERENCES, EXPORT;
    NoRows(base, REFERENCES);
    NoRows(base, EXPORT);
  }

  /** The empty schema goes up from every revision as the base promises. */
  lemma {:induction false} EmptyGoesUp(k: int, base: Db, w: Widths)
    requires IsBase(base, w) && FIRST <= k <= HEAD
    ensures SchemaAt(k, base, w).Done? && UpTo(k, HEAD, w, SchemaAt(k, base, w).db) == SchemaAt(HEAD, base, w)
    decreases HEAD - k
  {
    hide IsBase, Run, Up;
    ReachedSchema(k, base, w);
    if k < HEAD {
      ReachedSchema(k + 1, base, w);
      EmptyGoesUp(k + 1, base, w);
    } else {
      hide SchemaAt;
    }
  }
}
