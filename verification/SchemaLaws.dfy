/**
 What the revisions say, in their own words: the schema each of them leaves, written out table by table,
 and what that means for the rows of every database at that revision or a later one.
 */
module SchemaLaws {
  import opened Database
  import opened Preservation
  import opened Revisions
  import opened Bases
  import opened FreshBuild

  /** The table with these columns and constraints besides its own. */
  function Extended(t: Table, columns: map<string, Column>, constraints: map<string, Constraint>): Table
  {
    Table(t.columns + columns, t.constraints + constraints, t.rows)
  }

  /** The schema with one table replaced or added. */
  function Put(s: Db, name: string, t: Table): Db
  {
    s.(tables := s.tables[name := t])
  }

  function PutIndex(s: Db, name: string, table: string, col: string): Db
  {
    s.(indexes := s.indexes[name := Index(table, [col])])
  }

  function Text_(n: nat): Column { Column(Varchar(n), true, NoDefault) }

  function Key(n: nat): Column { Column(Varchar(n), false, NoDefault) }

  function Optional(typ: ColType): Column { Column(typ, true, NoDefault) }

  const COUNTER: Column := Column(Integer, false, NoDefault)

  const STAMP: Column := Column(Timestamptz, false, Now)

  /** The column with another width. */
  function Widened(s: Db, t: string, c: string, n: nat): Db
    requires HasColumn(s, t, c)
  {
    var column := s.tables[t].columns[c].(typ := Varchar(n));
    Put(s, t, s.tables[t].(columns := s.tables[t].columns[c := column]))
  }

  // ---- scripts, one statement after the other

  lemma {:induction false} StepsOf(ops: seq<Op>, s: Db) returns (ds: seq<Db>)
    requires Schema(s) == s && Run(ops, s).Done?
    ensures StepByStep(ops, ds) && ds[0] == s && Run(ops, s) == Done(ds[|ops|])
    ensures forall i :: 0 <= i < |ds| ==> Schema(ds[i]) == ds[i]
  {
    hide SchemaOk, DataOk, Effect, Schema;
    if ops == [] {
      ds := [s];
    } else {
      SchemaDecides(ops[0], s);
      SchemaOfEffect(ops[0], s);
      var rest := StepsOf(ops[1..], Effect(ops[0], s));
      ds := [s] + rest;
      assert ds[1..] == rest;
      forall i | 0 <= i < |ops|
        ensures SchemaOk(ops[i], ds[i]) && ds[i + 1] == Effect(ops[i], ds[i])
      {
        if i > 0 {
          assert ops[i] == ops[1..][i - 1] && ds[i] == rest[i - 1] && ds[i + 1] == rest[i];
        }
      }
    }
  }

  lemma AddedColumn(t: string, c: string, def: Column, s: Db)
    requires Schema(s) == s && SchemaOk(AddColumn(t, c, def), s)
    ensures Effect(AddColumn(t, c, def), s) == Put(s, t, Extended(s.tables[t], map[c := def], map[]))
  {
    NoRows(s, t);
    var table := s.tables[t];
    assert table.columns[c := def] == table.columns + map[c := def];
    assert table.constraints + map[] == table.constraints;
    assert WithColumn([], c, Fill(def)) == [];
  }

  lemma AddedConstraint(n: string, t: string, c: Constraint, s: Db)
    requires SchemaOk(AddConstraint(n, t, c), s)
    ensures Effect(AddConstraint(n, t, c), s) == Put(s, t, Extended(s.tables[t], map[], map[n := c]))
  {
    var table := s.tables[t];
    assert table.constraints[n := c] == table.constraints + map[n := c];
    assert table.columns + map[] == table.columns;
  }

  lemma ExtendedTwice(t: Table, a: map<string, Column>, x: map<string, Constraint>, b: map<string, Column>,
                      y: map<string, Constraint>)
    ensures Extended(Extended(t, a, x), b, y) == Extended(t, a + b, x + y)
  {
    assert t.columns + a + b == t.columns + (a + b);
    assert t.constraints + x + y == t.constraints + (x + y);
  }

  lemma PutTwice(s: Db, name: string, a: Table, b: Table)
    ensures Put(Put(s, name, a), name, b) == Put(s, name, b)
  {
    assert s.tables[name := a][name := b] == s.tables[name := b];
  }

  lemma ColumnsOnTop(s: Db, t: string, a: map<string, Column>, b: map<string, Column>)
    requires t in s.tables
    ensures var mid := Put(s, t, Extended(s.tables[t], a, map[]));
            Put(mid, t, Extended(mid.tables[t], b, map[])) == Put(s, t, Extended(s.tables[t], a + b, map[]))
  {
    var mid := Put(s, t, Extended(s.tables[t], a, map[]));
    ExtendedTwice(s.tables[t], a, map[], b, map[]);
    PutTwice(s, t, mid.tables[t], Extended(mid.tables[t], b, map[]));
    var none: map<string, Constraint> := map[];
    assert none + none == none;
  }

  /** The column is added by a step from `s` to `after`. */
  predicate Gains(s: Db, t: string, c: string, def: Column, after: Db)
  {
    Schema(s) == s && SchemaOk(AddColumn(t, c, def), s) && after == Effect(AddColumn(t, c, def), s)
  }

  lemma Gained(s: Db, t: string, c: string, def: Column, after: Db)
    requires Gains(s, t, c, def, after)
    ensures t in s.tables && after == Put(s, t, Extended(s.tables[t], map[c := def], map[]))
  {
    AddedColumn(t, c, def, s);
    hide Schema, Effect;
  }

  lemma TwoColumns(t: string, a: string, b: string, da: Column, db: Column, s: Db, s1: Db, s2: Db)
    requires Gains(s, t, a, da, s1) && Gains(s1, t, b, db, s2)
    ensures t in s.tables && s2 == Put(s, t, Extended(s.tables[t], map[a := da, b := db], map[]))
  {
    hide *;
    Gained(s, t, a, da, s1);
    Gained(s1, t, b, db, s2);
    StillThere(s, t, map[a := da]);
    ColumnsOnTop(s, t, map[a := da], map[b := db]);
    assert map[a := da] + map[b := db] == map[a := da, b := db];
  }

  lemma ThreeColumns(t: string, a: string, b: string, c: string, da: Column, db: Column, dc: Column, s: Db, s1: Db, s2: Db,
                     s3: Db)
    requires Gains(s, t, a, da, s1) && Gains(s1, t, b, db, s2) && Gains(s2, t, c, dc, s3)
    ensures t in s.tables && s3 == Put(s, t, Extended(s.tables[t], map[a := da, b := db, c := dc], map[]))
  {
    hide *;
    TwoColumns(t, a, b, da, db, s, s1, s2);
    Gained(s2, t, c, dc, s3);
    StillThere(s, t, map[a := da, b := db]);
    ColumnsOnTop(s, t, map[a := da, b := db], map[c := dc]);
    assert map[a := da, b := db] + map[c := dc] == map[a := da, b := db, c := dc];
  }

  lemma StillThere(s: Db, t: string, columns: map<string, Column>)
    requires t in s.tables
    ensures t in Put(s, t, Extended(s.tables[t], columns, map[])).tables
  {
  }

  /** The names the scripts use. */
  lemma Names()
    ensures REFERENCES == "strategy_revision_references" && REQUEST == "package_request"
    ensures PACKAGE_REVISION == "package_revision" && PLAN == "portfolio_allocation_plan"
    ensures PUBLICATION == "manual_publication_events" && LINK == "package_revision_link"
    ensures RUN_EVENT == "backtest_run_event" && RUN == "backtest_run" && EXPORT == "export_artifact"
    ensures EVENTS == "filtered_event" && CHECKSUMS == "result_artifact_checksum" && IMPORT_JOB == "package_import_job"
    ensures REGISTRY == "entity_registry" && STRATEGY == "strategy_root" && PRINCIPALS == "principals"
    ensures RESULT == "backtest_result" && STRATEGY_REVISION == "strategy_revision" && FAMILY == "rationale_family_root"
  {
  }

  // ---- revision by revision

  lemma Schema33(s: Db, w: Widths)
    requires Schema(s) == s && Run(Up(33, w), s).Done?
    ensures HasColumn(s, "strategy_revision_references", "dependency_role")
    ensures Run(Up(33, w), s) == Done(Widened(s, "strategy_revision_references", "dependency_role", 25))
  {
    Names();
    var ds := StepsOf(Up(33, w), s);
    hide TableName;
  }

  lemma Schema34(s: Db, w: Widths)
    requires Schema(s) == s && Run(Up(34, w), s).Done?
    ensures "package_request" in s.tables && "package_revision" in s.tables
    ensures var request := Extended(s.tables["package_request"], map["candidate_implementation" := Optional(Jsonb)], map[]);
            var revision := Extended(s.tables["package_revision"], map["implementation" := Optional(Jsonb)], map[]);
            Run(Up(34, w), s) == Done(Put(Put(s, "package_request", request), "package_revision", revision))
  {
    Names();
    TableNames();
    var u := Up(34, w);
    var ds := StepsOf(u, s);
    AddedColumn(u[0].table, u[0].col, u[0].def, ds[0]);
    AddedColumn(u[1].table, u[1].col, u[1].def, ds[1]);
    hide TableName, Schema, Effect, Run, Extended;
  }

  lemma Schema35(s: Db, w: Widths)
    requires Schema(s) == s && Run(Up(35, w), s).Done?
    ensures "portfolio_allocation_plan" in s.tables
    ensures Run(Up(35, w), s) == Done(Put(s, "portfolio_allocation_plan", Extended(s.tables["portfolio_allocation_plan"],
              map["max_total_exposure_percent" := Optional(Numeric), "conflict_policy" := Text_(w.conflictPolicy)], map[])))
  {
    Names();
    var u := Up(35, w);
    var ds := StepsOf(u, s);
    assert Gains(ds[0], u[0].table, u[0].col, u[0].def, ds[1]) && Gains(ds[1], u[1].table, u[1].col, u[1].def, ds[2]);
    TwoColumns(u[0].table, u[0].col, u[1].col, u[0].def, u[1].def, ds[0], ds[1], ds[2]);
    hide TableName, Schema, Effect, Run, Extended;
  }

  lemma Schema36(s: Db, w: Widths)
    requires Schema(s) == s && Run(Up(36, w), s).Done?
    ensures "manual_publication_events" in s.tables
    ensures Run(Up(36, w), s) == Done(Put(s, "manual_publication_events", Extended(s.tables["manual_publication_events"],
              map["duplicate_override" := Optional(Boolean), "duplicate_of_document_id" := Text_(40)], map[])))
  {
    Names();
    var u := Up(36, w);
    var ds := StepsOf(u, s);
    assert Gains(ds[0], u[0].table, u[0].col, u[0].def, ds[1]) && Gains(ds[1], u[1].table, u[1].col, u[1].def, ds[2]);
    TwoColumns(u[0].table, u[0].col, u[1].col, u[0].def, u[1].def, ds[0], ds[1], ds[2]);
    hide TableName, Schema, Effect, Run, Extended;
  }

  /** The link table of 0037: an attempt number is used once per request. */
  function LinkTable(w: Widths): Table
  {
    Table(map["revision_link_id" := Key(40), "request_entity_id" := Key(40), "attempt_no" := COUNTER,
              "parent_package_root_id" := Text_(40), "parent_revision_ref" := Text_(40),
              "prior_validation_run_ref" := Text_(40), "prior_candidate_hash" := Text_(80),
              "prior_state" := Key(w.packageState), "correlation_id" := Text_(64),
              "created_by_principal_id" := Text_(40), "created_at" := STAMP],
          map["package_revision_link_pkey" := PrimaryKey("revision_link_id"),
              "package_revision_link_request_entity_id_fkey" := ForeignKey("request_entity_id", "entity_registry", "entity_id"),
              "package_revision_link_created_by_principal_id_fkey" :=
                ForeignKey("created_by_principal_id", "principals", "principal_id"),
              "uq_package_revision_link_attempt" := Unique(["request_entity_id", "attempt_no"])],
          [])
  }

  const REVISED: map<string, Column> :=
    map["revision_attempt_no" := Column(Integer, false, Literal(Int(1))), "parent_revision_ref" := Text_(40),
        "prior_validation_run_ref" := Text_(40)]

  lemma LinkIs(w: Widths)
    ensures LinkTable(w) == Table(LinkColumns(w), LINK_CONSTRAINTS, [])
  {
    Names();
    hide TableName;
  }

  lemma Up37Is(w: Widths)
    ensures Up(37, w) ==
            [AddColumn("package_request", "revision_attempt_no", Column(Integer, false, Literal(Int(1)))),
             AddColumn("package_request", "parent_revision_ref", Text_(40)),
             AddColumn("package_request", "prior_validation_run_ref", Text_(40)),
             CreateTable("package_revision_link", LinkTable(w).columns, LinkTable(w).constraints),
             CreateIndex("ix_package_revision_link_request_entity_id", "package_revision_link", ["request_entity_id"])]
    ensures LinkTable(w).rows == []
  {
    Names();
    LinkIs(w);
    hide TableName, LinkTable, LinkColumns, LINK_CONSTRAINTS;
  }

  lemma Schema37(s: Db, w: Widths)
    requires Schema(s) == s && Run(Up(37, w), s).Done?
    ensures "package_request" in s.tables
    ensures Run(Up(37, w), s) ==
            Done(PutIndex(Put(Put(s, "package_request", Extended(s.tables["package_request"], REVISED, map[])),
                              "package_revision_link", LinkTable(w)),
                          "ix_package_revision_link_request_entity_id", "package_revision_link", "request_entity_id"))
  {
    Up37Is(w);
    RevisedIs();
    hide *;
    var table := LinkTable(w);
    assert table == Table(table.columns, table.constraints, []);
    ThreeThenTable("package_request", "revision_attempt_no", "parent_revision_ref", "prior_validation_run_ref",
                   Column(Integer, false, Literal(Int(1))), Text_(40), Text_(40), "package_revision_link", table.columns,
                   table.constraints, "ix_package_revision_link_request_entity_id", "request_entity_id", s);
  }

  lemma RevisedIs()
    ensures REVISED == map["revision_attempt_no" := Column(Integer, false, Literal(Int(1))),
                           "parent_revision_ref" := Text_(40), "prior_validation_run_ref" := Text_(40)]
  {
  }

  /** Creating a table and its index, symbolically. */
  lemma TableThenIndex(t: string, columns: map<string, Column>, constraints: map<string, Constraint>, x: string, c: string,
                       s: Db)
    requires Schema(s) == s && Run([CreateTable(t, columns, constraints), CreateIndex(x, t, [c])], s).Done?
    ensures Run([CreateTable(t, columns, constraints), CreateIndex(x, t, [c])], s)
         == Done(PutIndex(Put(s, t, Table(columns, constraints, [])), x, t, c))
    ensures Schema(PutIndex(Put(s, t, Table(columns, constraints, [])), x, t, c))
         == PutIndex(Put(s, t, Table(columns, constraints, [])), x, t, c)
  {
    var ds := StepsOf([CreateTable(t, columns, constraints), CreateIndex(x, t, [c])], s);
    hide Schema, Run;
  }

  lemma ThreeThenTable(t: string, a: string, b: string, c: string, da: Column, db: Column, dc: Column, u: string,
                       columns: map<string, Column>, constraints: map<string, Constraint>, x: string, col: string, s: Db)
    requires Schema(s) == s
    requires Run([AddColumn(t, a, da), AddColumn(t, b, db), AddColumn(t, c, dc), CreateTable(u, columns, constraints),
                  CreateIndex(x, u, [col])], s).Done?
    ensures t in s.tables
    ensures Run([AddColumn(t, a, da), AddColumn(t, b, db), AddColumn(t, c, dc), CreateTable(u, columns, constraints),
                 CreateIndex(x, u, [col])], s) ==
            Done(PutIndex(Put(Put(s, t, Extended(s.tables[t], map[a := da, b := db, c := dc], map[])),
                              u, Table(columns, constraints, [])), x, u, col))
  {
    var adds, creates := [AddColumn(t, a, da), AddColumn(t, b, db), AddColumn(t, c, dc)],
                         [CreateTable(u, columns, constraints), CreateIndex(x, u, [col])];
    assert adds + creates == [adds[0], adds[1], adds[2], creates[0], creates[1]];
    RunAppend(adds, creates, s);
    AddsThreeColumns(t, a, b, c, da, db, dc, s);
    hide Schema, Run, Extended;
    TableThenIndex(u, columns, constraints, x, col, Run(adds, s).db);
  }

  lemma AddsThreeColumns(t: string, a: string, b: string, c: string, da: Column, db: Column, dc: Column, s: Db)
    requires Schema(s) == s && Run([AddColumn(t, a, da), AddColumn(t, b, db), AddColumn(t, c, dc)], s).Done?
    ensures t in s.tables
    ensures var after := Put(s, t, Extended(s.tables[t], map[a := da, b := db, c := dc], map[]));
            && Run([AddColumn(t, a, da), AddColumn(t, b, db), AddColumn(t, c, dc)], s) == Done(after)
            && Schema(after) == after
  {
    var u := [AddColumn(t, a, da), AddColumn(t, b, db), AddColumn(t, c, dc)];
    var ds := StepsOf(u, s);
    assert Gains(ds[0], t, a, da, ds[1]) && Gains(ds[1], t, b, db, ds[2]) && Gains(ds[2], t, c, dc, ds[3]);
    hide *;
    ThreeColumns(t, a, b, c, da, db, dc, ds[0], ds[1], ds[2], ds[3]);
  }

  /** The event table of 0038: events of a run are numbered, each number once. */
  function RunEventTable(w: Widths): Table
  {
    Table(map["event_id" := Key(40), "run_id" := Key(40), "sequence_no" := COUNTER, "event_type" := Key(w.runEventType),
              "previous_state" := Text_(w.runState), "state" := Key(w.runState), "correlation_id" := Text_(40),
              "detail" := Optional(Jsonb), "occurred_at" := STAMP],
          map["backtest_run_event_pkey" := PrimaryKey("event_id"),
              "backtest_run_event_run_id_fkey" := ForeignKey("run_id", "backtest_run", "run_id"),
              "uq_backtest_run_event_sequence" := Unique(["run_id", "sequence_no"])],
          [])
  }

  lemma RunEventIs(w: Widths)
    ensures RunEventTable(w) == Table(RunEventColumns(w), RUN_EVENT_CONSTRAINTS, [])
  {
    Names();
    hide TableName;
  }

  lemma Schema38(s: Db, w: Widths)
    requires Schema(s) == s && Run(Up(38, w), s).Done?
    ensures Run(Up(38, w), s) == Done(PutIndex(Put(s, "backtest_run_event", RunEventTable(w)),
                                              "ix_backtest_run_event_run_id", "backtest_run_event", "run_id"))
  {
    Names();
    RunEventIs(w);
    hide RunEventTable, RunEventColumns, RUN_EVENT_CONSTRAINTS, TableName, Schema, Run;
    TableThenIndex(RUN_EVENT, RunEventColumns(w), RUN_EVENT_CONSTRAINTS, RUN_EVENT_INDEX, "run_id", s);
  }

  const CANCELLED: map<string, Column> :=
    map["cancel_requested_at" := Optional(Timestamptz), "cancel_requested_by_principal_id" := Text_(40),
        "cancellation_reason" := Optional(TextType)]

  const CANCELLER: map<string, Constraint> :=
    map["fk_backtest_run_cancel_requested_by" :=
          ForeignKey("cancel_requested_by_principal_id", "principals", "principal_id")]

  lemma ThreeThenConstraint(t: string, a: string, b: string, c: string, da: Column, db: Column, dc: Column, n: string,
                            edge: Constraint, s: Db)
    requires Schema(s) == s
    requires Run([AddColumn(t, a, da), AddColumn(t, b, db), AddColumn(t, c, dc), AddConstraint(n, t, edge)], s).Done?
    ensures t in s.tables
    ensures Run([AddColumn(t, a, da), AddColumn(t, b, db), AddColumn(t, c, dc), AddConstraint(n, t, edge)], s)
         == Done(Put(s, t, Extended(s.tables[t], map[a := da, b := db, c := dc], map[n := edge])))
  {
    var adds, last := [AddColumn(t, a, da), AddColumn(t, b, db), AddColumn(t, c, dc)], AddConstraint(n, t, edge);
    assert adds + [last] == [adds[0], adds[1], adds[2], last];
    hide *;
    RunAppend(adds, [last], s);
    AddsThreeColumns(t, a, b, c, da, db, dc, s);
    ConstraintOnTop(s, t, map[a := da, b := db, c := dc], n, edge);
  }

  lemma ConstraintOnTop(s: Db, t: string, columns: map<string, Column>, n: string, edge: Constraint)
    requires t in s.tables
    requires var mid := Put(s, t, Extended(s.tables[t], columns, map[])); Run([AddConstraint(n, t, edge)], mid).Done?
    ensures Run([AddConstraint(n, t, edge)], Put(s, t, Extended(s.tables[t], columns, map[])))
         == Done(Put(s, t, Extended(s.tables[t], columns, map[n := edge])))
  {
    var mid := Put(s, t, Extended(s.tables[t], columns, map[]));
    RunOne(AddConstraint(n, t, edge), mid);
    hide Run;
    AddedConstraint(n, t, edge, mid);
    ExtendedTwice(s.tables[t], columns, map[], map[], map[n := edge]);
    PutTwice(s, t, mid.tables[t], Extended(mid.tables[t], map[], map[n := edge]));
    hide Effect, SchemaOk, DataOk, Extended;
    var none: map<string, Constraint> := map[];
    assert columns + map[] == columns && none + map[n := edge] == map[n := edge];
  }

  lemma Schema39(s: Db, w: Widths)
    requires Schema(s) == s && Run(Up(39, w), s).Done?
    ensures "backtest_run" in s.tables
    ensures Run(Up(39, w), s) == Done(Put(s, "backtest_run", Extended(s.tables["backtest_run"], CANCELLED, CANCELLER)))
  {
    Names();
    var u := Up(39, w);
    var edge := ForeignKey("cancel_requested_by_principal_id", "principals", "principal_id");
    assert u == [AddColumn(RUN, "cancel_requested_at", u[0].def),
                 AddColumn(RUN, "cancel_requested_by_principal_id", u[1].def), AddColumn(RUN, "cancellation_reason", u[2].def),
                 AddConstraint("fk_backtest_run_cancel_requested_by", RUN, edge)];
    assert u[0].def == Optional(Timestamptz) && u[1].def == Text_(40) && u[2].def == Optional(TextType);
    hide TableName, Schema, Run, Extended, Up;
    ThreeThenConstraint(RUN, "cancel_requested_at", "cancel_requested_by_principal_id", "cancellation_reason", u[0].def,
                        u[1].def, u[2].def, "fk_backtest_run_cancel_requested_by", edge, s);
  }

  lemma Schema40(s: Db, w: Widths)
    requires Schema(s) == s && Run(Up(40, w), s).Done?
    ensures HasColumn(s, "export_artifact", "export_type")
    ensures Run(Up(40, w), s) == Done(Widened(s, "export_artifact", "export_type", 24))
  {
    Names();
    var ds := StepsOf(Up(40, w), s);
    hide TableName;
  }

  /** The two tables of 0041: numbered events of a result, and one checksum for each kind of artifact. */
  const EVENT_TABLE: Table :=
    Table(map["filtered_event_id" := Key(40), "result_id" := Key(40), "seq" := COUNTER, "event_time" := Key(32),
              "event_type" := Key(32), "direction" := Text_(8), "detail" := Optional(Jsonb)],
          map["filtered_event_pkey" := PrimaryKey("filtered_event_id"),
              "filtered_event_result_id_fkey" := ForeignKey("result_id", "backtest_result", "result_id"),
              "uq_filtered_event_seq" := Unique(["result_id", "seq"])],
          [])

  const CHECKSUM_TABLE: Table :=
    Table(map["checksum_id" := Key(40), "result_id" := Key(40), "artifact_type" := Key(32), "row_count" := COUNTER,
              "checksum" := Key(64), "schema_version" := Key(32)],
          map["result_artifact_checksum_pkey" := PrimaryKey("checksum_id"),
              "result_artifact_checksum_result_id_fkey" := ForeignKey("result_id", "backtest_result", "result_id"),
              "uq_result_artifact_checksum" := Unique(["result_id", "artifact_type"])],
          [])

  lemma EventsAre()
    ensures EVENT_TABLE == Table(EVENTS_COLUMNS, EVENTS_CONSTRAINTS, [])
  {
    Names();
    hide TableName;
  }

  lemma ChecksumsAre()
    ensures CHECKSUM_TABLE == Table(CHECKSUMS_COLUMNS, CHECKSUMS_CONSTRAINTS, [])
  {
    Names();
    hide TableName;
  }

  lemma Schema41(s: Db, w: Widths)
    requires Schema(s) == s && Run(Up(41, w), s).Done?
    ensures Run(Up(41, w), s) ==
            Done(PutIndex(Put(PutIndex(Put(s, "filtered_event", EVENT_TABLE),
                                       "ix_filtered_event_result_id", "filtered_event", "result_id"),
                              "result_artifact_checksum", CHECKSUM_TABLE),
                          "ix_result_artifact_checksum_result_id", "result_artifact_checksum", "result_id"))
  {
    Names();
    EventsAre();
    ChecksumsAre();
    var first := [CreateTable(EVENTS, EVENTS_COLUMNS, EVENTS_CONSTRAINTS), CreateIndex(EVENTS_INDEX, EVENTS, ["result_id"])];
    var second := [CreateTable(CHECKSUMS, CHECKSUMS_COLUMNS, CHECKSUMS_CONSTRAINTS),
                   CreateIndex(CHECKSUMS_INDEX, CHECKSUMS, ["result_id"])];
    hide EVENT_TABLE, CHECKSUM_TABLE, EVENTS_COLUMNS, EVENTS_CONSTRAINTS, CHECKSUMS_COLUMNS, CHECKSUMS_CONSTRAINTS, TableName,
      Schema, Run;
    assert Up(41, w) == first + second;
    RunAppend(first, second, s);
    TableThenIndex(EVENTS, EVENTS_COLUMNS, EVENTS_CONSTRAINTS, EVENTS_INDEX, "result_id", s);
    TableThenIndex(CHECKSUMS, CHECKSUMS_COLUMNS, CHECKSUMS_CONSTRAINTS, CHECKSUMS_INDEX, "result_id", Run(first, s).db);
  }

  lemma Schema42(s: Db, w: Widths)
    requires Schema(s) == s && Run(Up(42, w), s).Done?
    ensures "package_import_job" in s.tables
    ensures Run(Up(42, w), s) == Done(Put(s, "package_import_job",
              Extended(s.tables["package_import_job"], map["source_package_name" := Text_(255)], map[])))
  {
    Names();
    var u := Up(42, w);
    var ds := StepsOf(u, s);
    AddedColumn(u[0].table, u[0].col, u[0].def, ds[0]);
    hide TableName, Schema, Effect, Run, Extended;
  }

  const OWNER: map<string, Constraint> :=
    map["entity_registry_owner_principal_id_fkey" := ForeignKey("owner_principal_id", "principals", "principal_id")]

  const HEAD_AND_FAMILY: map<string, Constraint> :=
    map["strategy_root_current_revision_id_fkey" := ForeignKey("current_revision_id", "strategy_revision", "revision_id"),
        "strategy_root_rationale_family_id_fkey" :=
          ForeignKey("rationale_family_id", "rationale_family_root", "entity_id")]

  lemma TwoConstraints(t: string, m: string, n: string, x: Constraint, y: Constraint, s: Db)
    requires SchemaOk(AddConstraint(m, t, x), s) && SchemaOk(AddConstraint(n, t, y), Effect(AddConstraint(m, t, x), s))
    ensures Effect(AddConstraint(n, t, y), Effect(AddConstraint(m, t, x), s))
         == Put(s, t, Extended(s.tables[t], map[], map[m := x, n := y]))
  {
    var s1 := Effect(AddConstraint(m, t, x), s);
    AddedConstraint(m, t, x, s);
    AddedConstraint(n, t, y, s1);
    hide SchemaOk, Effect;
    ExtendedTwice(s.tables[t], map[], map[m := x], map[], map[n := y]);
    PutTwice(s, t, s1.tables[t], Extended(s1.tables[t], map[], map[n := y]));
    assert map[m := x] + map[n := y] == map[m := x, n := y];
    var none: map<string, Column> := map[];
    assert none + none == none;
  }

  lemma Schema43(s: Db, w: Widths)
    requires Schema(s) == s && Run(Up(43, w), s).Done?
    ensures "entity_registry" in s.tables && "strategy_root" in s.tables
    ensures Run(Up(43, w), s) ==
            Done(Put(Put(s, "entity_registry", Extended(s.tables["entity_registry"], map[], OWNER)),
                     "strategy_root", Extended(s.tables["strategy_root"], map[], HEAD_AND_FAMILY)))
  {
    Up43Is(w);
    hide *;
    OneThenTwo("entity_registry", "entity_registry_owner_principal_id_fkey",
               ForeignKey("owner_principal_id", "principals", "principal_id"), "strategy_root",
               "strategy_root_current_revision_id_fkey", "strategy_root_rationale_family_id_fkey",
               ForeignKey("current_revision_id", "strategy_revision", "revision_id"),
               ForeignKey("rationale_family_id", "rationale_family_root", "entity_id"), s);
    EdgesAre();
  }

  lemma EdgesAre()
    ensures OWNER == map["entity_registry_owner_principal_id_fkey" :=
                           ForeignKey("owner_principal_id", "principals", "principal_id")]
    ensures HEAD_AND_FAMILY ==
            map["strategy_root_current_revision_id_fkey" :=
                  ForeignKey("current_revision_id", "strategy_revision", "revision_id"),
                "strategy_root_rationale_family_id_fkey" :=
                  ForeignKey("rationale_family_id", "rationale_family_root", "entity_id")]
    ensures "entity_registry" != "strategy_root"
  {
    assert |"entity_registry"| == 15 && |"strategy_root"| == 13;
  }

  lemma Up43Is(w: Widths)
    ensures Up(43, w) ==
            [AddConstraint("entity_registry_owner_principal_id_fkey", "entity_registry",
                           ForeignKey("owner_principal_id", "principals", "principal_id")),
             AddConstraint("strategy_root_current_revision_id_fkey", "strategy_root",
                           ForeignKey("current_revision_id", "strategy_revision", "revision_id")),
             AddConstraint("strategy_root_rationale_family_id_fkey", "strategy_root",
                           ForeignKey("rationale_family_id", "rationale_family_root", "entity_id"))]
  {
    Names();
    hide TableName;
  }

  lemma OneThenTwo(t: string, n: string, x: Constraint, u: string, m: string, k: string, y: Constraint, z: Constraint, s: Db)
    requires Schema(s) == s && Run([AddConstraint(n, t, x), AddConstraint(m, u, y), AddConstraint(k, u, z)], s).Done?
    ensures t in s.tables && u in s.tables
    ensures t != u ==> Run([AddConstraint(n, t, x), AddConstraint(m, u, y), AddConstraint(k, u, z)], s) ==
                       Done(Put(Put(s, t, Extended(s.tables[t], map[], map[n := x])),
                                u, Extended(s.tables[u], map[], map[m := y, k := z])))
  {
    var ops := [AddConstraint(n, t, x), AddConstraint(m, u, y), AddConstraint(k, u, z)];
    var ds := StepsOf(ops, s);
    assert SchemaOk(ops[0], ds[0]) && SchemaOk(ops[1], ds[1]) && SchemaOk(ops[2], ds[2]);
    AddedConstraint(n, t, x, s);
    TwoConstraints(u, m, k, y, z, ds[1]);
    hide Schema, Effect, Run, Extended;
  }

  lemma HaltsThenConstraint(t: string, c: string, g: Guard, h: Guard, n: string, edge: Constraint, s: Db)
    requires Schema(s) == s && Run([HaltIfAny(t, c, g), HaltIfAny(t, c, h), AddConstraint(n, t, edge)], s).Done?
    ensures t in s.tables
    ensures Run([HaltIfAny(t, c, g), HaltIfAny(t, c, h), AddConstraint(n, t, edge)], s)
         == Done(Put(s, t, Extended(s.tables[t], map[], map[n := edge])))
  {
    var u := [HaltIfAny(t, c, g), HaltIfAny(t, c, h), AddConstraint(n, t, edge)];
    var ds := StepsOf(u, s);
    hide Schema, Run;
    assert ds[1] == s && ds[2] == s;
    AddedConstraint(n, t, edge, s);
  }

  lemma Up44Is(w: Widths)
    ensures Up(44, w) ==
            [HaltIfAny("portfolio_allocation_plan", "conflict_policy", HoldsValue("NET")),
             HaltIfAny("portfolio_allocation_plan", "conflict_policy", Outside({"BLOCK_OPPOSITE", "KEEP_SEPARATE"} + {"NET"})),
             AddConstraint("ck_portfolio_allocation_plan_conflict_policy", "portfolio_allocation_plan",
                           Check("conflict_policy", {"BLOCK_OPPOSITE", "KEEP_SEPARATE"}))]
  {
    Names();
    hide TableName;
  }

  lemma Schema44(s: Db, w: Widths)
    requires Schema(s) == s && Run(Up(44, w), s).Done?
    ensures "portfolio_allocation_plan" in s.tables
    ensures Run(Up(44, w), s) ==
            Done(Put(s, "portfolio_allocation_plan", Extended(s.tables["portfolio_allocation_plan"], map[],
              map["ck_portfolio_allocation_plan_conflict_policy" :=
                    Check("conflict_policy", {"BLOCK_OPPOSITE", "KEEP_SEPARATE"})])))
  {
    Up44Is(w);
    hide *;
    HaltsThenConstraint("portfolio_allocation_plan", "conflict_policy", HoldsValue("NET"),
                        Outside({"BLOCK_OPPOSITE", "KEEP_SEPARATE"} + {"NET"}),
                        "ck_portfolio_allocation_plan_conflict_policy",
                        Check("conflict_policy", {"BLOCK_OPPOSITE", "KEEP_SEPARATE"}), s);
  }
}
