/**
 Revisions 0033 to 0044 (backend/alembic/versions) as scripts of statements. Columns whose type the
 migrations take from a live enum are VARCHARs of a width that is left open.
 */
module Revisions {
  import opened Database

  /** The widths that `enum_column` gives the enum-typed columns of 0035, 0037 and 0038. */
  datatype Widths = Widths(conflictPolicy: nat, packageState: nat, runEventType: nat, runState: nat)

  function Nullable(typ: ColType): Column { Column(typ, true, NoDefault) }

  function Required(typ: ColType): Column { Column(typ, false, NoDefault) }

  const NOW: Column := Column(Timestamptz, false, Now)

  /** The tables the revisions name. */
  datatype Relation =
    | References | Request | PackageRevision | Plan | Publication | Link | RunEvent | BacktestRun | Export
    | FilteredEvent | Checksum | ImportJob | Registry | Strategy | Principals | BacktestResult
    | StrategyRevision | Family

  function TableName(r: Relation): string
  {
    match r
    case References => "strategy_revision_references"
    case Request => "package_request"
    case PackageRevision => "package_revision"
    case Plan => "portfolio_allocation_plan"
    case Publication => "manual_publication_events"
    case Link => "package_revision_link"
    case RunEvent => "backtest_run_event"
    case BacktestRun => "backtest_run"
    case Export => "export_artifact"
    case FilteredEvent => "filtered_event"
    case Checksum => "result_artifact_checksum"
    case ImportJob => "package_import_job"
    case Registry => "entity_registry"
    case Strategy => "strategy_root"
    case Principals => "principals"
    case BacktestResult => "backtest_result"
    case StrategyRevision => "strategy_revision"
    case Family => "rationale_family_root"
  }

  /** The indexes they create and the constraints they add to existing tables. */
  datatype NewIndex =
    | OnLink | OnRunEvent | OnEvents | OnChecksums

  function IndexName(x: NewIndex): string
  {
    match x
    case OnLink => "ix_package_revision_link_request_entity_id"
    case OnRunEvent => "ix_backtest_run_event_run_id"
    case OnEvents => "ix_filtered_event_result_id"
    case OnChecksums => "ix_result_artifact_checksum_result_id"
  }

  datatype NewConstraint =
    | CancelKey | OwnerKey | HeadKey | FamilyKey | PolicyCheck

  function ConstraintName(n: NewConstraint): string
  {
    match n
    case CancelKey => "fk_backtest_run_cancel_requested_by"
    case OwnerKey => "entity_registry_owner_principal_id_fkey"
    case HeadKey => "strategy_root_current_revision_id_fkey"
    case FamilyKey => "strategy_root_rationale_family_id_fkey"
    case PolicyCheck => "ck_portfolio_allocation_plan_conflict_policy"
  }

  // tables that more than one revision names, or that exist already
  const REQUEST: string := TableName(Request)
  const PACKAGE_REVISION: string := TableName(PackageRevision)
  const PUBLICATION: string := TableName(Publication)
  const IMPORT_JOB: string := TableName(ImportJob)
  const REGISTRY: string := TableName(Registry)
  const STRATEGY: string := TableName(Strategy)
  const PRINCIPALS: string := TableName(Principals)
  const RESULT: string := TableName(BacktestResult)
  const STRATEGY_REVISION: string := TableName(StrategyRevision)
  const FAMILY: string := TableName(Family)

  // 0033
  const REFERENCES: string := TableName(References)
  const ROLE: string := "dependency_role"

  function Up33(): seq<Op> { [AlterType(REFERENCES, ROLE, Varchar(18), Varchar(25))] }

  function Down33(): seq<Op> { [AlterType(REFERENCES, ROLE, Varchar(25), Varchar(18))] }

  // 0034
  function Up34(): seq<Op>
  {
    [AddColumn(REQUEST, "candidate_implementation", Nullable(Jsonb)),
     AddColumn(PACKAGE_REVISION, "implementation", Nullable(Jsonb))]
  }

  function Down34(): seq<Op>
  {
    [DropColumn(PACKAGE_REVISION, "implementation"), DropColumn(REQUEST, "candidate_implementation")]
  }

  // 0035
  const PLAN: string := TableName(Plan)
  const POLICY: string := "conflict_policy"

  function Up35(w: Widths): seq<Op>
  {
    [AddColumn(PLAN, "max_total_exposure_percent", Nullable(Numeric)),
     AddColumn(PLAN, POLICY, Nullable(Varchar(w.conflictPolicy)))]
  }

  function Down35(): seq<Op>
  {
    [DropColumn(PLAN, POLICY), DropColumn(PLAN, "max_total_exposure_percent")]
  }

  // 0036
  function Up36(): seq<Op>
  {
    [AddColumn(PUBLICATION, "duplicate_override", Nullable(Boolean)),
     AddColumn(PUBLICATION, "duplicate_of_document_id", Nullable(Varchar(40)))]
  }

  function Down36(): seq<Op>
  {
    [DropColumn(PUBLICATION, "duplicate_of_document_id"),
     DropColumn(PUBLICATION, "duplicate_override")]
  }

  // 0037
  const LINK: string := TableName(Link)
  const LINK_INDEX: string := IndexName(OnLink)

  function LinkColumns(w: Widths): map<string, Column>
  {
    map["revision_link_id" := Required(Varchar(40)),
        "request_entity_id" := Required(Varchar(40)),
        "attempt_no" := Required(Integer),
        "parent_package_root_id" := Nullable(Varchar(40)),
        "parent_revision_ref" := Nullable(Varchar(40)),
        "prior_validation_run_ref" := Nullable(Varchar(40)),
        "prior_candidate_hash" := Nullable(Varchar(80)),
        "prior_state" := Required(Varchar(w.packageState)),
        "correlation_id" := Nullable(Varchar(64)),
        "created_by_principal_id" := Nullable(Varchar(40)),
        "created_at" := NOW]
  }

  const LINK_CONSTRAINTS: map<string, Constraint> :=
    map["package_revision_link_pkey" := PrimaryKey("revision_link_id"),
        "package_revision_link_request_entity_id_fkey" := ForeignKey("request_entity_id", REGISTRY, "entity_id"),
        "package_revision_link_created_by_principal_id_fkey" :=
          ForeignKey("created_by_principal_id", PRINCIPALS, "principal_id"),
        "uq_package_revision_link_attempt" := Unique(["request_entity_id", "attempt_no"])]

  function Up37(w: Widths): seq<Op>
  {
    [AddColumn(REQUEST, "revision_attempt_no", Column(Integer, false, Literal(Int(1)))),
     AddColumn(REQUEST, "parent_revision_ref", Nullable(Varchar(40))),
     AddColumn(REQUEST, "prior_validation_run_ref", Nullable(Varchar(40))),
     CreateTable(LINK, LinkColumns(w), LINK_CONSTRAINTS),
     CreateIndex(LINK_INDEX, LINK, ["request_entity_id"])]
  }

  function Down37(): seq<Op>
  {
    [DropIndex(LINK_INDEX),
     DropTable(LINK),
     DropColumn(REQUEST, "prior_validation_run_ref"),
     DropColumn(REQUEST, "parent_revision_ref"),
     DropColumn(REQUEST, "revision_attempt_no")]
  }

  // 0038
  const RUN_EVENT: string := TableName(RunEvent)
  const RUN_EVENT_INDEX: string := IndexName(OnRunEvent)

  function RunEventColumns(w: Widths): map<string, Column>
  {
    map["event_id" := Required(Varchar(40)),
        "run_id" := Required(Varchar(40)),
        "sequence_no" := Required(Integer),
        "event_type" := Required(Varchar(w.runEventType)),
        "previous_state" := Nullable(Varchar(w.runState)),
        "state" := Required(Varchar(w.runState)),
        "correlation_id" := Nullable(Varchar(40)),
        "detail" := Nullable(Jsonb),
        "occurred_at" := NOW]
  }

  const RUN_EVENT_CONSTRAINTS: map<string, Constraint> :=
    map["backtest_run_event_pkey" := PrimaryKey("event_id"),
        "backtest_run_event_run_id_fkey" := ForeignKey("run_id", RUN, "run_id"),
        "uq_backtest_run_event_sequence" := Unique(["run_id", "sequence_no"])]

  function Up38(w: Widths): seq<Op>
  {
    [CreateTable(RUN_EVENT, RunEventColumns(w), RUN_EVENT_CONSTRAINTS),
     CreateIndex(RUN_EVENT_INDEX, RUN_EVENT, ["run_id"])]
  }

  function Down38(): seq<Op>
  {
    [DropIndex(RUN_EVENT_INDEX), DropTable(RUN_EVENT)]
  }

  // 0039
  const RUN: string := TableName(BacktestRun)
  const CANCELLED_BY: string := "cancel_requested_by_principal_id"
  const CANCEL_FK: string := ConstraintName(CancelKey)

  function Up39(): seq<Op>
  {
    [AddColumn(RUN, "cancel_requested_at", Nullable(Timestamptz)),
     AddColumn(RUN, CANCELLED_BY, Nullable(Varchar(40))),
     AddColumn(RUN, "cancellation_reason", Nullable(TextType)),
     AddConstraint(CANCEL_FK, RUN, ForeignKey(CANCELLED_BY, PRINCIPALS, "principal_id"))]
  }

  function Down39(): seq<Op>
  {
    [DropConstraint(CANCEL_FK, RUN),
     DropColumn(RUN, "cancellation_reason"),
     DropColumn(RUN, CANCELLED_BY),
     DropColumn(RUN, "cancel_requested_at")]
  }

  // 0040
  const EXPORT: string := TableName(Export)
  const EXPORT_TYPE: string := "export_type"

  function Up40(): seq<Op> { [AlterType(EXPORT, EXPORT_TYPE, Varchar(13), Varchar(24))] }

  function Down40(): seq<Op> { [AlterType(EXPORT, EXPORT_TYPE, Varchar(24), Varchar(13))] }

  // 0041
  const EVENTS: string := TableName(FilteredEvent)
  const EVENTS_INDEX: string := IndexName(OnEvents)
  const CHECKSUMS: string := TableName(Checksum)
  const CHECKSUMS_INDEX: string := IndexName(OnChecksums)

  const EVENTS_COLUMNS: map<string, Column> :=
    map["filtered_event_id" := Required(Varchar(40)),
        "result_id" := Required(Varchar(40)),
        "seq" := Required(Integer),
        "event_time" := Required(Varchar(32)),
        "event_type" := Required(Varchar(32)),
        "direction" := Nullable(Varchar(8)),
        "detail" := Nullable(Jsonb)]

  const EVENTS_CONSTRAINTS: map<string, Constraint> :=
    map["filtered_event_pkey" := PrimaryKey("filtered_event_id"),
        "filtered_event_result_id_fkey" := ForeignKey("result_id", RESULT, "result_id"),
        "uq_filtered_event_seq" := Unique(["result_id", "seq"])]

  const CHECKSUMS_COLUMNS: map<string, Column> :=
    map["checksum_id" := Required(Varchar(40)),
        "result_id" := Required(Varchar(40)),
        "artifact_type" := Required(Varchar(32)),
        "row_count" := Required(Integer),
        "checksum" := Required(Varchar(64)),
        "schema_version" := Required(Varchar(32))]

  const CHECKSUMS_CONSTRAINTS: map<string, Constraint> :=
    map["result_artifact_checksum_pkey" := PrimaryKey("checksum_id"),
        "result_artifact_checksum_result_id_fkey" := ForeignKey("result_id", RESULT, "result_id"),
        "uq_result_artifact_checksum" := Unique(["result_id", "artifact_type"])]

  function Up41(): seq<Op>
  {
    [CreateTable(EVENTS, EVENTS_COLUMNS, EVENTS_CONSTRAINTS),
     CreateIndex(EVENTS_INDEX, EVENTS, ["result_id"]),
     CreateTable(CHECKSUMS, CHECKSUMS_COLUMNS, CHECKSUMS_CONSTRAINTS),
     CreateIndex(CHECKSUMS_INDEX, CHECKSUMS, ["result_id"])]
  }

  function Down41(): seq<Op>
  {
    [DropIndex(CHECKSUMS_INDEX), DropTable(CHECKSUMS), DropIndex(EVENTS_INDEX), DropTable(EVENTS)]
  }

  // 0042
  function Up42(): seq<Op>
  {
    [AddColumn(IMPORT_JOB, "source_package_name", Nullable(Varchar(255)))]
  }

  function Down42(): seq<Op> { [DropColumn(IMPORT_JOB, "source_package_name")] }

  // 0043
  const OWNER_FK: string := ConstraintName(OwnerKey)
  const HEAD_FK: string := ConstraintName(HeadKey)
  const FAMILY_FK: string := ConstraintName(FamilyKey)
  const OWNER_EDGE: Constraint := ForeignKey("owner_principal_id", PRINCIPALS, "principal_id")
  const HEAD_EDGE: Constraint := ForeignKey("current_revision_id", STRATEGY_REVISION, "revision_id")
  const FAMILY_EDGE: Constraint := ForeignKey("rationale_family_id", FAMILY, "entity_id")

  function Up43(): seq<Op>
  {
    [AddConstraint(OWNER_FK, REGISTRY, OWNER_EDGE),
     AddConstraint(HEAD_FK, STRATEGY, HEAD_EDGE),
     AddConstraint(FAMILY_FK, STRATEGY, FAMILY_EDGE)]
  }

  function Down43(): seq<Op>
  {
    [DropConstraint(FAMILY_FK, STRATEGY),
     DropConstraint(HEAD_FK, STRATEGY),
     DropConstraint(OWNER_FK, REGISTRY)]
  }

  // 0044
  const POLICY_CHECK: string := ConstraintName(PolicyCheck)
  const ALLOWED: set<string> := {"BLOCK_OPPOSITE", "KEEP_SEPARATE"}
  const REMOVED: string := "NET"

  function Up44(): seq<Op>
  {
    [HaltIfAny(PLAN, POLICY, HoldsValue(REMOVED)),
     HaltIfAny(PLAN, POLICY, Outside(ALLOWED + {REMOVED})),
     AddConstraint(POLICY_CHECK, PLAN, Check(POLICY, ALLOWED))]
  }

  function Down44(): seq<Op> { [DropConstraint(POLICY_CHECK, PLAN)] }

  /** `upgrade()` of revision `k`. */
  function Up(k: int, w: Widths): seq<Op>
  {
    match k
    case 33 => Up33()
    case 34 => Up34()
    case 35 => Up35(w)
    case 36 => Up36()
    case 37 => Up37(w)
    case 38 => Up38(w)
    case 39 => Up39()
    case 40 => Up40()
    case 41 => Up41()
    case 42 => Up42()
    case 43 => Up43()
    case 44 => Up44()
    case _ => []
  }

  /** `downgrade()` of revision `k`. */
  function Down(k: int): seq<Op>
  {
    match k
    case 33 => Down33()
    case 34 => Down34()
    case 35 => Down35()
    case 36 => Down36()
    case 37 => Down37()
    case 38 => Down38()
    case 39 => Down39()
    case 40 => Down40()
    case 41 => Down41()
    case 42 => Down42()
    case 43 => Down43()
    case 44 => Down44()
    case _ => []
  }
}

/** Facts about the scripts that hold whatever database they meet. */
module Scripts {
  import opened Database
  import opened Preservation
  import opened Revisions

  lemma InversesCons(op: Op, rest: seq<Op>)
    ensures Inverses([op] + rest) == Inverses(rest) + Inverse(op)
  {
    hide Inverse;
    assert ([op] + rest)[1..] == rest;
  }

  lemma InversesOf1(a: Op)
    ensures Inverses([a]) == Inverse(a)
  {
    hide Inverse;
    InversesCons(a, []);
    assert [a] + [] == [a];
  }

  lemma InversesOf2(a: Op, b: Op)
    ensures Inverses([a, b]) == Inverse(b) + Inverse(a)
  {
    hide Inverse;
    InversesOf1(b);
    InversesCons(a, [b]);
    assert [a] + [b] == [a, b];
  }

  lemma InversesOf3(a: Op, b: Op, c: Op)
    ensures Inverses([a, b, c]) == Inverse(c) + Inverse(b) + Inverse(a)
  {
    hide Inverse;
    InversesOf2(b, c);
    InversesCons(a, [b, c]);
    assert [a] + [b, c] == [a, b, c];
  }

  lemma InversesOf4(a: Op, b: Op, c: Op, e: Op)
    ensures Inverses([a, b, c, e]) == Inverse(e) + Inverse(c) + Inverse(b) + Inverse(a)
  {
    hide Inverse;
    InversesOf3(b, c, e);
    InversesCons(a, [b, c, e]);
    assert [a] + [b, c, e] == [a, b, c, e];
  }

  lemma InversesOf5(a: Op, b: Op, c: Op, e: Op, f: Op)
    ensures Inverses([a, b, c, e, f]) == Inverse(f) + Inverse(e) + Inverse(c) + Inverse(b) + Inverse(a)
  {
    hide Inverse;
    InversesOf4(b, c, e, f);
    InversesCons(a, [b, c, e, f]);
    assert [a] + [b, c, e, f] == [a, b, c, e, f];
  }

  /** The two scripts of a revision belong together: down is up undone, last statement first. */
  predicate Paired(up: seq<Op>, down: seq<Op>)
  {
    down == Inverses(up) && AllUp(up) && AllDown(down)
  }

  lemma Paired33()
    ensures Paired(Up33(), Down33())
  {
    hide Inverses, REFERENCES, ROLE;
    var u := Up33();
    InversesOf1(u[0]);
  }

  lemma Paired34()
    ensures Paired(Up34(), Down34())
  {
    hide Inverses;
    var u := Up34();
    InversesOf2(u[0], u[1]);
  }

  lemma Paired35(w: Widths)
    ensures Paired(Up35(w), Down35())
  {
    hide Inverses, PLAN, POLICY;
    var u := Up35(w);
    InversesOf2(u[0], u[1]);
  }

  lemma Paired36()
    ensures Paired(Up36(), Down36())
  {
    hide Inverses;
    var u := Up36();
    InversesOf2(u[0], u[1]);
  }

  lemma Paired37(w: Widths)
    ensures Paired(Up37(w), Down37())
  {
    hide Inverses, LINK, LINK_INDEX, LINK_CONSTRAINTS, LinkColumns;
    var u := Up37(w);
    InversesOf5(u[0], u[1], u[2], u[3], u[4]);
  }

  lemma Paired38(w: Widths)
    ensures Paired(Up38(w), Down38())
  {
    hide Inverses, RUN_EVENT, RUN_EVENT_INDEX, RUN_EVENT_CONSTRAINTS, RunEventColumns;
    var u := Up38(w);
    InversesOf2(u[0], u[1]);
  }

  lemma Paired39()
    ensures Paired(Up39(), Down39())
  {
    hide Inverses, RUN, CANCELLED_BY, CANCEL_FK;
    var u := Up39();
    InversesOf4(u[0], u[1], u[2], u[3]);
  }

  lemma Paired40()
    ensures Paired(Up40(), Down40())
  {
    hide Inverses, EXPORT, EXPORT_TYPE;
    var u := Up40();
    InversesOf1(u[0]);
  }

  lemma Paired41()
    ensures Paired(Up41(), Down41())
  {
    hide Inverses, EVENTS, EVENTS_INDEX, EVENTS_COLUMNS, EVENTS_CONSTRAINTS, CHECKSUMS, CHECKSUMS_INDEX,
      CHECKSUMS_COLUMNS, CHECKSUMS_CONSTRAINTS;
    var u := Up41();
    InversesOf4(u[0], u[1], u[2], u[3]);
  }

  lemma Paired42()
    ensures Paired(Up42(), Down42())
  {
    hide Inverses;
    var u := Up42();
    InversesOf1(u[0]);
  }

  lemma Paired43()
    ensures Paired(Up43(), Down43())
  {
    hide Inverses, OWNER_FK, HEAD_FK, FAMILY_FK;
    var u := Up43();
    InversesOf3(u[0], u[1], u[2]);
  }

  lemma Paired44()
    ensures Paired(Up44(), Down44())
  {
    hide Inverses, PLAN, POLICY, POLICY_CHECK, ALLOWED, REMOVED;
    var u := Up44();
    InversesOf3(u[0], u[1], u[2]);
  }

  /** Every `downgrade()` is its `upgrade()` undone in reverse order. */
  lemma DownUndoesUp(k: int, w: Widths)
    requires 33 <= k <= 44
    ensures Down(k) == Inverses(Up(k, w)) && AllUp(Up(k, w)) && AllDown(Down(k))
  {
    hide Inverses, AllUp, AllDown, Up33, Up34, Up35, Up36, Up37, Up38, Up39, Up40, Up41, Up42, Up43, Up44,
      Down33, Down34, Down35, Down36, Down37, Down38, Down39, Down40, Down41, Down42, Down43, Down44;
    match k
    case 33 => Paired33();
    case 34 => Paired34();
    case 35 => Paired35(w);
    case 36 => Paired36();
    case 37 => Paired37(w);
    case 38 => Paired38(w);
    case 39 => Paired39();
    case 40 => Paired40();
    case 41 => Paired41();
    case 42 => Paired42();
    case 43 => Paired43();
    case 44 => Paired44();
  }
}
