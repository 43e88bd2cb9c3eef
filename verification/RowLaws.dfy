/**
 What the revisions promise about rows: laws of every database at a revision or a later one, in the tables'
 and columns' own names.
 */
module RowLaws {
  import opened Database
  import opened Preservation
  import opened Revisions
  import opened Scripts
  import opened Bases
  import opened Steps
  import opened FreshBuild
  import opened SchemaLaws
  import opened Counting

  // ---- laws

  /** No two rows agree in both columns. */
  predicate NoTwoAgree(rows: seq<Row>, a: string, b: string)
  {
    forall i, j :: 0 <= i < j < |rows| ==> Val(rows[i], a) != Val(rows[j], a) || Val(rows[i], b) != Val(rows[j], b)
  }

  predicate NoTwoShare(rows: seq<Row>, a: string)
  {
    forall i, j :: 0 <= i < j < |rows| ==> Val(rows[i], a) != Val(rows[j], a)
  }

  predicate NeverNull(rows: seq<Row>, a: string)
  {
    forall i :: 0 <= i < |rows| ==> !Val(rows[i], a).Null?
  }

  /** Every value of the column is that of an existing row of the other table; NULL refers to nothing. */
  predicate PointsInto(rows: seq<Row>, c: string, target: seq<Row>, x: string)
  {
    forall i :: 0 <= i < |rows| && !Val(rows[i], c).Null? ==> exists j :: 0 <= j < |target| && Val(target[j], x) == Val(rows[i], c)
  }

  function Rows(d: Db, t: string): seq<Row>
  {
    if t in d.tables then d.tables[t].rows else []
  }

  // ---- from the schema to the rows

  lemma FromSchema(d: Db, t: string, table: Table)
    requires Valid(d) && t in Schema(d).tables && Schema(d).tables[t].columns == table.columns
    requires Schema(d).tables[t].constraints == table.constraints
    ensures t in d.tables && Rows(d, t) == d.tables[t].rows
    ensures forall i :: 0 <= i < |Rows(d, t)| ==> RowFits(Rows(d, t)[i], table.columns)
    ensures forall n :: n in table.constraints ==> Holds(d.tables, Rows(d, t), table.constraints[n])
  {
    assert TableValid(d.tables, d.tables[t]);
    hide Holds, RowFits, WellFormed, Valid;
  }

  lemma FilledColumn(rows: seq<Row>, columns: map<string, Column>, c: string)
    requires (forall i :: 0 <= i < |rows| ==> RowFits(rows[i], columns)) && c in columns && !columns[c].nullable
    ensures NeverNull(rows, c)
  {
    forall i | 0 <= i < |rows|
      ensures !Val(rows[i], c).Null?
    {
      assert RowFits(rows[i], columns);
    }
  }

  lemma UniquePair(tables: map<string, Table>, rows: seq<Row>, a: string, b: string)
    requires Holds(tables, rows, Unique([a, b])) && NeverNull(rows, a) && NeverNull(rows, b)
    ensures NoTwoAgree(rows, a, b)
  {
    forall i, j | 0 <= i < j < |rows|
      ensures Val(rows[i], a) != Val(rows[j], a) || Val(rows[i], b) != Val(rows[j], b)
    {
      assert !SameKey([a, b], rows[i], rows[j]);
    }
  }

  lemma PrimaryColumn(tables: map<string, Table>, rows: seq<Row>, a: string)
    requires Holds(tables, rows, PrimaryKey(a))
    ensures NeverNull(rows, a) && NoTwoShare(rows, a)
  {
    forall i, j | 0 <= i < j < |rows|
      ensures Val(rows[i], a) != Val(rows[j], a)
    {
      assert !SameKey([a], rows[i], rows[j]);
    }
  }

  lemma ForeignColumn(d: Db, rows: seq<Row>, c: string, t: string, x: string)
    requires Holds(d.tables, rows, ForeignKey(c, t, x))
    ensures PointsInto(rows, c, Rows(d, t), x)
  {
    forall i | 0 <= i < |rows| && !Val(rows[i], c).Null?
      ensures exists j :: 0 <= j < |Rows(d, t)| && Val(Rows(d, t)[j], x) == Val(rows[i], c)
    {
      assert t in d.tables && Refers(Val(rows[i], c), d.tables[t].rows, x);
      var target := Rows(d, t);
      var j :| 0 <= j < |target| && Val(target[j], x) == Val(rows[i], c);
    }
  }

  // ---- from one revision to the later ones

  lemma {:induction false} SchemaIsSchema(k: int, base: Db, w: Widths)
    requires Schema(base) == base && FIRST <= k && SchemaAt(k, base, w).Done?
    ensures Schema(SchemaAt(k, base, w).db) == SchemaAt(k, base, w).db
    decreases k
  {
    hide Schema, Run, Up;
    if k > FIRST {
      SchemaIsSchema(k - 1, base, w);
      RunOnSchema(Up(k, w), SchemaAt(k - 1, base, w).db);
    }
  }

  lemma {:induction false} KeptSince(k: int, m: int, t: string, base: Db, w: Widths)
    requires FIRST <= k <= m <= HEAD && SchemaAt(m, base, w).Done?
    requires forall j :: k < j <= m ==> !OnStage(t, j)
    ensures SchemaAt(k, base, w).Done? && Same(SchemaAt(m, base, w).db, SchemaAt(k, base, w).db, t)
    decreases m
  {
    hide OnStage, Run, Up;
    if k < m {
      assert SchemaAt(m - 1, base, w).Done?;
      KeptSince(k, m - 1, t, base, w);
      var s := SchemaAt(m - 1, base, w).db;
      assert SchemaAt(m, base, w) == Run(Up(m, w), s);
      Frame(m, s, w);
      assert !OnStage(t, m);
      assert Same(Run(Up(m, w), s).db, s, t);
    }
  }

  /** The schema of the revision before `k`, and what revision `k` made of it. */
  lemma StepBefore(k: int, m: int, base: Db, w: Widths) returns (s: Db)
    requires Schema(base) == base && FIRST < k <= m <= HEAD && SchemaAt(m, base, w).Done?
    ensures Schema(s) == s && SchemaAt(k - 1, base, w) == Done(s) && SchemaAt(k, base, w) == Run(Up(k, w), s)
    ensures SchemaAt(k, base, w).Done?
  {
    hide Run, Up, Schema;
    EarlierDone(k, m, base, w);
    s := SchemaAt(k - 1, base, w).db;
    SchemaIsSchema(k - 1, base, w);
  }

  lemma {:induction false} EarlierDone(k: int, m: int, base: Db, w: Widths)
    requires FIRST <= k <= m && SchemaAt(m, base, w).Done?
    ensures SchemaAt(k, base, w).Done? && (k > FIRST ==> SchemaAt(k - 1, base, w).Done?)
    decreases m
  {
    hide Run, Up;
    if k < m {
      EarlierDone(k, m - 1, base, w);
    }
  }

  // ---- the new tables

  lemma LinkTableAt(k: int, d: Db, base: Db, w: Widths)
    requires Schema(base) == base && IsAt(k, d, base, w) && k >= 37
    ensures "package_revision_link" in Schema(d).tables && Schema(d).tables["package_revision_link"] == LinkTable(w)
  {
    Stages();
    Names();
    hide Stage, TableName, Schema, Valid, SchemaAt, LinkTable;
    var s := StepBefore(37, k, base, w);
    Schema37(s, w);
    KeptSince(37, k, "package_revision_link", base, w);
    hide Run, Extended;
  }

  /**
   From 0037 on, an attempt number is used once per request, and the request of every link is a registered
   entity.
   */
  lemma AttemptsAreNumbered(k: int, d: Db, base: Db, w: Widths)
    requires Schema(base) == base && IsAt(k, d, base, w) && k >= 37
    ensures "package_revision_link" in d.tables
    ensures var rows := Rows(d, "package_revision_link");
            && NoTwoShare(rows, "revision_link_id") && NeverNull(rows, "revision_link_id")
            && NoTwoAgree(rows, "request_entity_id", "attempt_no")
            && NeverNull(rows, "request_entity_id") && NeverNull(rows, "attempt_no")
            && PointsInto(rows, "request_entity_id", Rows(d, "entity_registry"), "entity_id")
            && PointsInto(rows, "created_by_principal_id", Rows(d, "principals"), "principal_id")
  {
    LinkTableAt(k, d, base, w);
    FromSchema(d, "package_revision_link", LinkTable(w));
    LinkLaws(d, Rows(d, "package_revision_link"), w);
    hide *;
  }

  lemma LinkLaws(d: Db, rows: seq<Row>, w: Widths)
    requires forall i :: 0 <= i < |rows| ==> RowFits(rows[i], LinkTable(w).columns)
    requires forall n :: n in LinkTable(w).constraints ==> Holds(d.tables, rows, LinkTable(w).constraints[n])
    ensures NoTwoShare(rows, "revision_link_id") && NeverNull(rows, "revision_link_id")
    ensures NoTwoAgree(rows, "request_entity_id", "attempt_no")
    ensures NeverNull(rows, "request_entity_id") && NeverNull(rows, "attempt_no")
    ensures PointsInto(rows, "request_entity_id", Rows(d, "entity_registry"), "entity_id")
    ensures PointsInto(rows, "created_by_principal_id", Rows(d, "principals"), "principal_id")
  {
    var t := LinkTable(w);
    hide Holds, RowFits, NoTwoShare, NeverNull, NoTwoAgree, PointsInto, Rows;
    assert t.constraints["package_revision_link_pkey"] == PrimaryKey("revision_link_id");
    assert t.constraints["uq_package_revision_link_attempt"] == Unique(["request_entity_id", "attempt_no"]);
    FilledColumn(rows, t.columns, "request_entity_id");
    FilledColumn(rows, t.columns, "attempt_no");
    PrimaryColumn(d.tables, rows, "revision_link_id");
    UniquePair(d.tables, rows, "request_entity_id", "attempt_no");
    assert t.constraints["package_revision_link_request_entity_id_fkey"] ==
           ForeignKey("request_entity_id", "entity_registry", "entity_id");
    ForeignColumn(d, rows, "request_entity_id", "entity_registry", "entity_id");
    assert t.constraints["package_revision_link_created_by_principal_id_fkey"] ==
           ForeignKey("created_by_principal_id", "principals", "principal_id");
    ForeignColumn(d, rows, "created_by_principal_id", "principals", "principal_id");
  }

  /** From 0038 on, the events of a run are numbered, no number twice, and each belongs to an existing run. */
  lemma RunEventsAreNumbered(k: int, d: Db, base: Db, w: Widths)
    requires Schema(base) == base && IsAt(k, d, base, w) && k >= 38
    ensures "backtest_run_event" in d.tables
    ensures var rows := Rows(d, "backtest_run_event");
            && NoTwoShare(rows, "event_id") && NeverNull(rows, "event_id")
            && NoTwoAgree(rows, "run_id", "sequence_no")
            && NeverNull(rows, "run_id") && NeverNull(rows, "sequence_no")
            && PointsInto(rows, "run_id", Rows(d, "backtest_run"), "run_id")
  {
    RunEventTableAt(k, d, base, w);
    FromSchema(d, "backtest_run_event", RunEventTable(w));
    RunEventLaws(d, Rows(d, "backtest_run_event"), w);
    hide *;
  }

  lemma RunEventTableAt(k: int, d: Db, base: Db, w: Widths)
    requires Schema(base) == base && IsAt(k, d, base, w) && k >= 38
    ensures "backtest_run_event" in Schema(d).tables && Schema(d).tables["backtest_run_event"] == RunEventTable(w)
  {
    Stages();
    Names();
    hide Stage, TableName, Schema, Valid, SchemaAt, RunEventTable;
    var s := StepBefore(38, k, base, w);
    Schema38(s, w);
    KeptSince(38, k, "backtest_run_event", base, w);
    hide Run, Extended;
  }

  lemma RunEventLaws(d: Db, rows: seq<Row>, w: Widths)
    requires forall i :: 0 <= i < |rows| ==> RowFits(rows[i], RunEventTable(w).columns)
    requires forall n :: n in RunEventTable(w).constraints ==> Holds(d.tables, rows, RunEventTable(w).constraints[n])
    ensures NoTwoShare(rows, "event_id") && NeverNull(rows, "event_id")
    ensures NoTwoAgree(rows, "run_id", "sequence_no")
    ensures NeverNull(rows, "run_id") && NeverNull(rows, "sequence_no")
    ensures PointsInto(rows, "run_id", Rows(d, "backtest_run"), "run_id")
  {
    var t := RunEventTable(w);
    hide Holds, RowFits, NoTwoShare, NeverNull, NoTwoAgree, PointsInto, Rows;
    assert t.constraints["backtest_run_event_pkey"] == PrimaryKey("event_id");
    assert t.constraints["uq_backtest_run_event_sequence"] == Unique(["run_id", "sequence_no"]);
    assert t.constraints["backtest_run_event_run_id_fkey"] == ForeignKey("run_id", "backtest_run", "run_id");
    FilledColumn(rows, t.columns, "run_id");
    FilledColumn(rows, t.columns, "sequence_no");
    PrimaryColumn(d.tables, rows, "event_id");
    UniquePair(d.tables, rows, "run_id", "sequence_no");
    ForeignColumn(d, rows, "run_id", "backtest_run", "run_id");
  }

  /** From 0041 on, a result's filtered events are numbered and it has one checksum for each kind of artifact. */
  lemma ResultPartsAreUnique(k: int, d: Db, base: Db, w: Widths)
    requires Schema(base) == base && IsAt(k, d, base, w) && k >= 41
    ensures "filtered_event" in d.tables && "result_artifact_checksum" in d.tables
    ensures var rows := Rows(d, "filtered_event");
            && NoTwoShare(rows, "filtered_event_id") && NeverNull(rows, "filtered_event_id")
            && NoTwoAgree(rows, "result_id", "seq") && NeverNull(rows, "result_id") && NeverNull(rows, "seq")
            && PointsInto(rows, "result_id", Rows(d, "backtest_result"), "result_id")
    ensures var rows := Rows(d, "result_artifact_checksum");
            && NoTwoShare(rows, "checksum_id") && NeverNull(rows, "checksum_id")
            && NoTwoAgree(rows, "result_id", "artifact_type")
            && NeverNull(rows, "result_id") && NeverNull(rows, "artifact_type")
            && PointsInto(rows, "result_id", Rows(d, "backtest_result"), "result_id")
  {
    ResultTablesAt(k, d, base, w);
    FromSchema(d, "filtered_event", EVENT_TABLE);
    FromSchema(d, "result_artifact_checksum", CHECKSUM_TABLE);
    EventLaws(d, Rows(d, "filtered_event"));
    ChecksumLaws(d, Rows(d, "result_artifact_checksum"));
    hide *;
  }

  lemma TablesOf41(s: Db, w: Widths)
    requires Schema(s) == s && Run(Up(41, w), s).Done?
    ensures var after := Run(Up(41, w), s).db;
            && "filtered_event" in after.tables && after.tables["filtered_event"] == EVENT_TABLE
            && "result_artifact_checksum" in after.tables && after.tables["result_artifact_checksum"] == CHECKSUM_TABLE
  {
    Schema41(s, w);
    assert |"filtered_event"| == 14 && |"result_artifact_checksum"| == 24;
    hide Schema, Run, Up, EVENT_TABLE, CHECKSUM_TABLE;
  }

  lemma LastTouchedIn41(j: int)
    requires j > 41
    ensures !OnStage("filtered_event", j) && !OnStage("result_artifact_checksum", j)
  {
    Stages();
    Names();
    assert |"filtered_event"| == 14 && |"result_artifact_checksum"| == 24 && |REQUEST| == 15 && |PLAN| == 25;
    hide Stage, TableName;
  }

  lemma ResultTablesAt(k: int, d: Db, base: Db, w: Widths)
    requires Schema(base) == base && IsAt(k, d, base, w) && k >= 41
    ensures "filtered_event" in Schema(d).tables && Schema(d).tables["filtered_event"] == EVENT_TABLE
    ensures "result_artifact_checksum" in Schema(d).tables
    ensures Schema(d).tables["result_artifact_checksum"] == CHECKSUM_TABLE
  {
    hide OnStage, Schema, Valid, SchemaAt, EVENT_TABLE, CHECKSUM_TABLE, Run, Up;
    var s := StepBefore(41, k, base, w);
    TablesOf41(s, w);
    forall j | 41 < j <= k
      ensures !OnStage("filtered_event", j) && !OnStage("result_artifact_checksum", j)
    {
      LastTouchedIn41(j);
    }
    KeptSince(41, k, "filtered_event", base, w);
    KeptSince(41, k, "result_artifact_checksum", base, w);
  }

  lemma EventLaws(d: Db, rows: seq<Row>)
    requires forall i :: 0 <= i < |rows| ==> RowFits(rows[i], EVENT_TABLE.columns)
    requires forall n :: n in EVENT_TABLE.constraints ==> Holds(d.tables, rows, EVENT_TABLE.constraints[n])
    ensures NoTwoShare(rows, "filtered_event_id") && NeverNull(rows, "filtered_event_id")
    ensures NoTwoAgree(rows, "result_id", "seq") && NeverNull(rows, "result_id") && NeverNull(rows, "seq")
    ensures PointsInto(rows, "result_id", Rows(d, "backtest_result"), "result_id")
  {
    var t := EVENT_TABLE;
    hide Holds, RowFits, NoTwoShare, NeverNull, NoTwoAgree, PointsInto, Rows;
    assert t.constraints["filtered_event_pkey"] == PrimaryKey("filtered_event_id");
    assert t.constraints["uq_filtered_event_seq"] == Unique(["result_id", "seq"]);
    assert t.constraints["filtered_event_result_id_fkey"] == ForeignKey("result_id", "backtest_result", "result_id");
    FilledColumn(rows, t.columns, "result_id");
    FilledColumn(rows, t.columns, "seq");
    PrimaryColumn(d.tables, rows, "filtered_event_id");
    UniquePair(d.tables, rows, "result_id", "seq");
    ForeignColumn(d, rows, "result_id", "backtest_result", "result_id");
  }

  lemma ChecksumLaws(d: Db, rows: seq<Row>)
    requires forall i :: 0 <= i < |rows| ==> RowFits(rows[i], CHECKSUM_TABLE.columns)
    requires forall n :: n in CHECKSUM_TABLE.constraints ==> Holds(d.tables, rows, CHECKSUM_TABLE.constraints[n])
    ensures NoTwoShare(rows, "checksum_id") && NeverNull(rows, "checksum_id")
    ensures NoTwoAgree(rows, "result_id", "artifact_type")
    ensures NeverNull(rows, "result_id") && NeverNull(rows, "artifact_type")
    ensures PointsInto(rows, "result_id", Rows(d, "backtest_result"), "result_id")
  {
    var t := CHECKSUM_TABLE;
    hide Holds, RowFits, NoTwoShare, NeverNull, NoTwoAgree, PointsInto, Rows;
    assert t.constraints["result_artifact_checksum_pkey"] == PrimaryKey("checksum_id");
    assert t.constraints["uq_result_artifact_checksum"] == Unique(["result_id", "artifact_type"]);
    assert t.constraints["result_artifact_checksum_result_id_fkey"] ==
           ForeignKey("result_id", "backtest_result", "result_id");
    FilledColumn(rows, t.columns, "result_id");
    FilledColumn(rows, t.columns, "artifact_type");
    PrimaryColumn(d.tables, rows, "checksum_id");
    UniquePair(d.tables, rows, "result_id", "artifact_type");
    ForeignColumn(d, rows, "result_id", "backtest_result", "result_id");
  }

  // ---- references and values added to existing tables

  /** The table carries the constraint at the revision that added it, and the rows satisfy it. */
  lemma CarriedConstraint(k: int, m: int, d: Db, base: Db, w: Widths, t: string, n: string, c: Constraint)
    requires FIRST <= k <= m && IsAt(m, d, base, w) && (forall j :: k < j <= m ==> !OnStage(t, j))
    requires SchemaAt(k, base, w).Done? && t in SchemaAt(k, base, w).db.tables
    requires n in SchemaAt(k, base, w).db.tables[t].constraints && SchemaAt(k, base, w).db.tables[t].constraints[n] == c
    ensures t in d.tables && Holds(d.tables, Rows(d, t), c)
  {
    hide OnStage, SchemaAt, Valid, Schema, Holds;
    KeptSince(k, m, t, base, w);
    FromSchema(d, t, Schema(d).tables[t]);
  }

  /** From 0039 on, whoever asked for a cancellation is an existing principal. */
  lemma CancellersExist(k: int, d: Db, base: Db, w: Widths)
    requires Schema(base) == base && IsAt(k, d, base, w) && k >= 39
    ensures "backtest_run" in d.tables
    ensures PointsInto(Rows(d, "backtest_run"), "cancel_requested_by_principal_id", Rows(d, "principals"), "principal_id")
  {
    Stages();
    Names();
    hide Stage, TableName, Schema, Valid, SchemaAt;
    var s := StepBefore(39, k, base, w);
    Schema39(s, w);
    hide Run, Holds, PointsInto, Rows;
    var edge := ForeignKey("cancel_requested_by_principal_id", "principals", "principal_id");
    CarriedConstraint(39, k, d, base, w, "backtest_run", "fk_backtest_run_cancel_requested_by", edge);
    ForeignColumn(d, Rows(d, "backtest_run"), "cancel_requested_by_principal_id", "principals", "principal_id");
  }

  /** From 0043 on, owners, head revisions and rationale families exist. */
  lemma RegistryPointsSomewhere(k: int, d: Db, base: Db, w: Widths)
    requires Schema(base) == base && IsAt(k, d, base, w) && k >= 43
    ensures "entity_registry" in d.tables && "strategy_root" in d.tables
    ensures PointsInto(Rows(d, "entity_registry"), "owner_principal_id", Rows(d, "principals"), "principal_id")
    ensures PointsInto(Rows(d, "strategy_root"), "current_revision_id", Rows(d, "strategy_revision"), "revision_id")
    ensures PointsInto(Rows(d, "strategy_root"), "rationale_family_id", Rows(d, "rationale_family_root"), "entity_id")
  {
    Stages();
    Names();
    EdgeNames();
    hide Stage, TableName, ConstraintName, Schema, Valid, SchemaAt;
    var s := StepBefore(43, k, base, w);
    Schema43(s, w);
    hide Run, Holds, PointsInto, Rows;
    var head := ForeignKey("current_revision_id", "strategy_revision", "revision_id");
    var family := ForeignKey("rationale_family_id", "rationale_family_root", "entity_id");
    CarriedConstraint(43, k, d, base, w, "entity_registry", "entity_registry_owner_principal_id_fkey",
                      ForeignKey("owner_principal_id", "principals", "principal_id"));
    CarriedConstraint(43, k, d, base, w, "strategy_root", "strategy_root_current_revision_id_fkey", head);
    CarriedConstraint(43, k, d, base, w, "strategy_root", "strategy_root_rationale_family_id_fkey", family);
    ForeignColumn(d, Rows(d, "entity_registry"), "owner_principal_id", "principals", "principal_id");
    ForeignColumn(d, Rows(d, "strategy_root"), "current_revision_id", "strategy_revision", "revision_id");
    ForeignColumn(d, Rows(d, "strategy_root"), "rationale_family_id", "rationale_family_root", "entity_id");
  }

  /** At 0044, a conflict policy is one of the two that survive, or none. */
  lemma PoliciesSurvive(k: int, d: Db, base: Db, w: Widths)
    requires Schema(base) == base && IsAt(k, d, base, w) && k >= 44
    ensures "portfolio_allocation_plan" in d.tables
    ensures forall i :: 0 <= i < |Rows(d, "portfolio_allocation_plan")| ==>
              var v := Val(Rows(d, "portfolio_allocation_plan")[i], "conflict_policy");
              v == Null || v == Text("BLOCK_OPPOSITE") || v == Text("KEEP_SEPARATE")
  {
    hide Schema, Valid, SchemaAt;
    var s := StepBefore(44, k, base, w);
    Schema44(s, w);
    hide Run, Rows;
    CarriedConstraint(44, k, d, base, w, "portfolio_allocation_plan", "ck_portfolio_allocation_plan_conflict_policy",
                      Check("conflict_policy", {"BLOCK_OPPOSITE", "KEEP_SEPARATE"}));
  }

  /** From 0033 and 0040 on, no stored text is longer than the width they set. */
  lemma WidthsHold(k: int, d: Db, base: Db, w: Widths)
    requires Schema(base) == base && IsAt(k, d, base, w)
    ensures k >= 33 ==> NoneLonger(d, "strategy_revision_references", "dependency_role", 25)
    ensures k >= 40 ==> NoneLonger(d, "export_artifact", "export_type", 24)
  {
    Stages();
    Names();
    hide Stage, TableName, Schema, Valid, SchemaAt, NoneLonger;
    if k >= 33 {
      var s := StepBefore(33, k, base, w);
      Schema33(s, w);
      KeptSince(33, k, "strategy_revision_references", base, w);
      hide Run;
      WidthAt(d, "strategy_revision_references", "dependency_role", 25);
    }
    if k >= 40 {
      var s := StepBefore(40, k, base, w);
      Schema40(s, w);
      KeptSince(40, k, "export_artifact", base, w);
      hide Run;
      WidthAt(d, "export_artifact", "export_type", 24);
    }
  }

  lemma WidthAt(d: Db, t: string, c: string, n: nat)
    requires Valid(d) && HasColumn(Schema(d), t, c) && Schema(d).tables[t].columns[c].typ == Varchar(n)
    ensures NoneLonger(d, t, c, n)
  {
    assert t in d.tables && d.tables[t].columns == Schema(d).tables[t].columns;
    WideEnough(t, c, d, n, n);
  }

  // ---- what existing rows are given

  /** Every row of the table has this value in the column. */
  predicate AllHave(d: Db, t: string, c: string, v: Value)
  {
    t in d.tables && forall i :: 0 <= i < |d.tables[t].rows| ==> Val(d.tables[t].rows[i], c) == v
  }

  lemma {:induction false} GivenTo(ops: seq<Op>, d: Db, i: nat)
    requires AllUp(ops) && Run(ops, d).Done? && i < |ops| && ops[i].AddColumn?
    ensures AllHave(Run(ops, d).db, ops[i].table, ops[i].col, Fill(ops[i].def))
    ensures ops[i].table in Run(ops, d).db.tables && ops[i].col in Run(ops, d).db.tables[ops[i].table].columns
  {
    hide SchemaOk, DataOk, Fill, Extends;
    var next := Effect(ops[0], d);
    assert IsUp(ops[0]) && AllUp(ops[1..]);
    if i > 0 {
      hide Effect;
      GivenTo(ops[1..], next, i - 1);
    } else {
      RunPreserves(ops[1..], next);
      assert AllHave(next, ops[0].table, ops[0].col, Fill(ops[0].def));
      hide Effect;
      StillGiven(next, Run(ops[1..], next).db, ops[0].table, ops[0].col, Fill(ops[0].def));
    }
  }

  lemma StillGiven(d: Db, after: Db, t: string, c: string, v: Value)
    requires Extends(d, after) && AllHave(d, t, c, v) && c in d.tables[t].columns
    ensures AllHave(after, t, c, v) && c in after.tables[t].columns
  {
    assert Includes(d.tables[t], after.tables[t]);
    forall i | 0 <= i < |after.tables[t].rows|
      ensures Val(after.tables[t].rows[i], c) == v
    {
      assert Val(d.tables[t].rows[i], c) == v;
    }
  }

  /** What an upgrade gives to the rows that are there: an added column without a default is empty. */
  lemma EarlyColumnsAreEmpty(k: int, d: Db, w: Widths)
    requires 34 <= k <= 36 && Run(Up(k, w), d).Done?
    ensures var after := Run(Up(k, w), d).db;
            && (k == 34 ==> && AllHave(after, "package_request", "candidate_implementation", Null)
                            && AllHave(after, "package_revision", "implementation", Null))
            && (k == 35 ==> && AllHave(after, "portfolio_allocation_plan", "max_total_exposure_percent", Null)
                            && AllHave(after, "portfolio_allocation_plan", "conflict_policy", Null))
            && (k == 36 ==> && AllHave(after, "manual_publication_events", "duplicate_override", Null)
                            && AllHave(after, "manual_publication_events", "duplicate_of_document_id", Null))
  {
    Names();
    DownUndoesUp(k, w);
    var u := Up(k, w);
    hide TableName, Run, Down, Inverses, AllUp, AllDown, AllHave;
    GivenTo(u, d, 0);
    GivenTo(u, d, 1);
  }

  /** A request made before 0037 counts as its first attempt. */
  lemma RequestsAreFirstAttempts(d: Db, w: Widths)
    requires Run(Up(37, w), d).Done?
    ensures var after := Run(Up(37, w), d).db;
            && AllHave(after, "package_request", "revision_attempt_no", Int(1))
            && AllHave(after, "package_request", "parent_revision_ref", Null)
            && AllHave(after, "package_request", "prior_validation_run_ref", Null)
  {
    Up37Is(w);
    DownUndoesUp(37, w);
    var u := Up(37, w);
    hide LinkTable, Up, Run, Down, Inverses, AllUp, AllDown, AllHave;
    GivenTo(u, d, 0);
    GivenTo(u, d, 1);
    GivenTo(u, d, 2);
  }

  lemma CancellationColumnsAreEmpty(d: Db, w: Widths)
    requires Run(Up(39, w), d).Done?
    ensures var after := Run(Up(39, w), d).db;
            && AllHave(after, "backtest_run", "cancel_requested_at", Null)
            && AllHave(after, "backtest_run", "cancel_requested_by_principal_id", Null)
            && AllHave(after, "backtest_run", "cancellation_reason", Null)
  {
    Names();
    DownUndoesUp(39, w);
    var u := Up(39, w);
    assert u[0].AddColumn? && u[0].table == "backtest_run" && u[0].col == "cancel_requested_at" && Fill(u[0].def) == Null;
    assert u[1].AddColumn? && u[1].table == "backtest_run" && u[1].col == "cancel_requested_by_principal_id"
           && Fill(u[1].def) == Null;
    assert u[2].AddColumn? && u[2].table == "backtest_run" && u[2].col == "cancellation_reason" && Fill(u[2].def) == Null;
    hide *;
    GivenTo(u, d, 0);
    GivenTo(u, d, 1);
    GivenTo(u, d, 2);
  }

  lemma SourceNamesAreEmpty(d: Db, w: Widths)
    requires Run(Up(42, w), d).Done?
    ensures AllHave(Run(Up(42, w), d).db, "package_import_job", "source_package_name", Null)
  {
    Names();
    DownUndoesUp(42, w);
    hide TableName, Run, Down, Inverses, AllUp, AllDown, AllHave;
    GivenTo(Up(42, w), d, 0);
  }

  // ---- when an upgrade or a downgrade is refused

  /** What the rows must be for the upgrade to revision `k`. */
  predicate RowsAllowUp(k: int, d: Db)
  {
    && (k == 33 ==> NoneLonger(d, "strategy_revision_references", "dependency_role", 25))
    && (k == 40 ==> NoneLonger(d, "export_artifact", "export_type", 24))
    && (k == 43 ==>
          && "entity_registry" in d.tables && "strategy_root" in d.tables
          && PointsInto(Rows(d, "entity_registry"), "owner_principal_id", Rows(d, "principals"), "principal_id")
          && PointsInto(Rows(d, "strategy_root"), "current_revision_id", Rows(d, "strategy_revision"), "revision_id")
          && PointsInto(Rows(d, "strategy_root"), "rationale_family_id", Rows(d, "rationale_family_root"), "entity_id"))
    && (k == 44 ==>
          && "portfolio_allocation_plan" in d.tables
          && forall i :: 0 <= i < |Rows(d, "portfolio_allocation_plan")| ==>
               var v := Val(Rows(d, "portfolio_allocation_plan")[i], "conflict_policy");
               v == Null || v == Text("BLOCK_OPPOSITE") || v == Text("KEEP_SEPARATE"))
  }

  predicate RowsAllowDown(k: int, d: Db)
  {
    && (k == 33 ==> NoneLonger(d, "strategy_revision_references", "dependency_role", 18))
    && (k == 40 ==> NoneLonger(d, "export_artifact", "export_type", 13))
  }

  lemma EdgeMeans(d: Db, t: string, c: string, u: string, x: string)
    ensures EdgeOk(d, t, ForeignKey(c, u, x)) <==>
            t in d.tables && PointsInto(Rows(d, t), c, Rows(d, u), x)
  {
    if t in d.tables && Holds(d.tables, d.tables[t].rows, ForeignKey(c, u, x)) {
      ForeignColumn(d, d.tables[t].rows, c, u, x);
    }
    if t in d.tables && PointsInto(Rows(d, t), c, Rows(d, u), x) {
      forall i | 0 <= i < |d.tables[t].rows| && !Val(d.tables[t].rows[i], c).Null?
        ensures u in d.tables && Refers(Val(d.tables[t].rows[i], c), d.tables[u].rows, x)
      {
        var j :| 0 <= j < |Rows(d, u)| && Val(Rows(d, u)[j], x) == Val(Rows(d, t)[i], c);
      }
    }
  }

  lemma PoliciesMean(d: Db)
    ensures PoliciesAllowed(d) <==> RowsAllowUp(44, d)
  {
    Names();
    hide TableName;
    forall v
      ensures CheckPasses(v, ALLOWED) <==> v == Null || v == Text("BLOCK_OPPOSITE") || v == Text("KEEP_SEPARATE")
    {
      SurvivingValue(v);
    }
    hide CheckPasses, ALLOWED;
    if PLAN in d.tables {
      var rows := Rows(d, "portfolio_allocation_plan");
      assert rows == d.tables[PLAN].rows;
    }
  }

  lemma SurvivingValue(v: Value)
    ensures CheckPasses(v, ALLOWED) <==> v == Null || v == Text("BLOCK_OPPOSITE") || v == Text("KEEP_SEPARATE")
  {
  }

  lemma OrphansMean(d: Db)
    ensures NoOrphans(d) <==> RowsAllowUp(43, d)
  {
    Names();
    EdgeMeans(d, "entity_registry", "owner_principal_id", "principals", "principal_id");
    EdgeMeans(d, "strategy_root", "current_revision_id", "strategy_revision", "revision_id");
    EdgeMeans(d, "strategy_root", "rationale_family_id", "rationale_family_root", "entity_id");
    hide TableName, EdgeOk, PointsInto, Rows;
  }

  lemma WidthsMean(k: int, d: Db)
    ensures k == 33 || k == 40 ==> (UpCondition(k, d) <==> RowsAllowUp(k, d))
    ensures DownCondition(k, d) <==> RowsAllowDown(k, d)
  {
    Names();
    hide TableName, NoneLonger;
  }

  /** An upgrade from its revision succeeds if and only if the rows are as `RowsAllowUp` says. */
  lemma UpgradeRefusedExactly(k: int, d: Db, base: Db, w: Widths)
    requires IsBase(base, w) && IsAt(k, d, base, w) && k < HEAD
    ensures Run(Up(k + 1, w), d).Done? <==> RowsAllowUp(k + 1, d)
  {
    UpSucceedsExactly(k, d, base, w);
    PoliciesMean(d);
    OrphansMean(d);
    WidthsMean(k + 1, d);
    hide Run, Up, IsBase, IsAt, NoneLonger, PoliciesAllowed, NoOrphans, PointsInto, Rows;
  }

  /** A downgrade succeeds if and only if no text is longer than the width it goes back to. */
  lemma DowngradeRefusedExactly(k: int, d: Db, base: Db, w: Widths)
    requires IsBase(base, w) && IsAt(k, d, base, w) && k > FIRST
    ensures Run(Down(k), d).Done? <==> RowsAllowDown(k, d)
  {
    hide *;
    DownSucceedsExactly(k, d, base, w);
    WidthsMean(k, d);
  }

  // ---- the two halts of 0044

  function Holding(v: Value): Row -> bool
  {
    (r: Row) => Val(r, "conflict_policy") == v
  }

  function Drifted(): Row -> bool
  {
    (r: Row) =>
      var v := Val(r, "conflict_policy");
      v != Null && v != Text("BLOCK_OPPOSITE") && v != Text("KEEP_SEPARATE") && v != Text("NET")
  }

  lemma {:induction false} CountsMean(rows: seq<Row>)
    ensures CountMatching(rows, "conflict_policy", HoldsValue("NET")) == |Positions(rows, Holding(Text("NET")))|
    ensures CountMatching(rows, "conflict_policy", Outside({"BLOCK_OPPOSITE", "KEEP_SEPARATE"} + {"NET"}))
         == |Positions(rows, Drifted())|
  {
    if rows == [] {
      NoneInEmpty(Holding(Text("NET")));
      NoneInEmpty(Drifted());
    } else {
      CountsMean(rows[1..]);
      PositionsCons(rows[0], rows[1..], Holding(Text("NET")));
      PositionsCons(rows[0], rows[1..], Drifted());
      assert rows == [rows[0]] + rows[1..];
      hide Positions;
    }
  }

  /**
   0044 on any database with the column and without the constraint: if a row holds NET it halts there, with
   the number of such rows; if none does but some row holds another stray value, it halts there, with their
   number; and otherwise it goes through.
   */
  lemma NetIsReportedFirst(d: Db, w: Widths)
    requires HasColumn(d, "portfolio_allocation_plan", "conflict_policy")
    requires "ck_portfolio_allocation_plan_conflict_policy" !in d.tables["portfolio_allocation_plan"].constraints
    ensures var rows := Rows(d, "portfolio_allocation_plan");
            var nets, others := |Positions(rows, Holding(Text("NET")))|, |Positions(rows, Drifted())|;
            && (nets > 0 ==> Run(Up(44, w), d) == Failed(Halted(HoldsValue("NET"), nets)))
            && (nets == 0 && others > 0 ==>
                  Run(Up(44, w), d) == Failed(Halted(Outside({"BLOCK_OPPOSITE", "KEEP_SEPARATE"} + {"NET"}), others)))
            && (nets == 0 && others == 0 ==> Run(Up(44, w), d).Done?)
  {
    Names();
    CountsMean(Rows(d, "portfolio_allocation_plan"));
    Up44Is(w);
    PolicyUpgrade(d);
    GuardsAreExact(d.tables[PLAN].rows);
    hide TableName, Run, Positions, CountMatching;
  }
}
