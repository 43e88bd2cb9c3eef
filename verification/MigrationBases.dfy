/** Which scripts can stumble over rows at all. */
module Hazards {
  import opened Database
  import opened Preservation
  import opened Revisions

  /** The statement never looks at existing values: it goes through whenever the schema allows it. */
  predicate NeverFailsOnData(op: Op)
  {
    match op
    case AddColumn(_, _, def) => Conforms(Fill(def), def)
    case AlterType(_, _, _, _) => false
    case AddConstraint(_, _, _) => false
    case HaltIfAny(_, _, _) => false
    case _ => true
  }

  predicate Harmless(ops: seq<Op>)
  {
    forall op :: op in ops ==> NeverFailsOnData(op)
  }

  lemma {:induction false} HarmlessRuns(ops: seq<Op>, d: Db)
    requires Harmless(ops)
    ensures DataOkRun(ops, d)
  {
    if ops != [] && SchemaOk(ops[0], d) {
      assert NeverFailsOnData(ops[0]);
      hide SchemaOk, Effect, Conforms, Fill;
      HarmlessRuns(ops[1..], Effect(ops[0], d));
    }
  }

  /** An upward statement that changes no type and adds no key is taken back by its inverse anywhere. */
  predicate PlainUp(op: Op)
  {
    IsUp(op) && !op.AlterType? && (op.AddConstraint? ==> op.c.ForeignKey? || op.c.Check?)
  }

  lemma {:induction false} PlainUndoable(ops: seq<Op>, d: Db)
    requires forall op :: op in ops ==> PlainUp(op)
    ensures UndoableRun(ops, d)
  {
    hide SchemaOk, DataOk, Effect;
    if ops != [] {
      assert PlainUp(ops[0]);
      if Apply(ops[0], d).Done? {
        PlainUndoable(ops[1..], Effect(ops[0], d));
      }
    }
  }

  lemma Traits34()
    ensures (forall op :: op in Up34() ==> PlainUp(op)) && Harmless(Down34())
    ensures Harmless(Up34())
  {
  }

  lemma Traits35(w: Widths)
    ensures (forall op :: op in Up35(w) ==> PlainUp(op)) && Harmless(Down35())
    ensures Harmless(Up35(w))
  {
    hide PLAN, POLICY;
  }

  lemma Traits36()
    ensures (forall op :: op in Up36() ==> PlainUp(op)) && Harmless(Down36())
    ensures Harmless(Up36())
  {
  }

  lemma Traits37(w: Widths)
    ensures (forall op :: op in Up37(w) ==> PlainUp(op)) && Harmless(Down37())
    ensures Harmless(Up37(w))
  {
    hide LINK, LINK_INDEX, LINK_CONSTRAINTS, LinkColumns;
  }

  lemma Traits38(w: Widths)
    ensures (forall op :: op in Up38(w) ==> PlainUp(op)) && Harmless(Down38())
    ensures Harmless(Up38(w))
  {
    hide RUN_EVENT, RUN_EVENT_INDEX, RUN_EVENT_CONSTRAINTS, RunEventColumns;
  }

  lemma Traits39()
    ensures (forall op :: op in Up39() ==> PlainUp(op)) && Harmless(Down39())
  {
    hide RUN, CANCELLED_BY, CANCEL_FK;
  }

  lemma Traits41()
    ensures (forall op :: op in Up41() ==> PlainUp(op)) && Harmless(Down41())
    ensures Harmless(Up41())
  {
    hide EVENTS, EVENTS_INDEX, EVENTS_COLUMNS, EVENTS_CONSTRAINTS, CHECKSUMS, CHECKSUMS_INDEX,
      CHECKSUMS_COLUMNS, CHECKSUMS_CONSTRAINTS;
  }

  lemma Traits42()
    ensures (forall op :: op in Up42() ==> PlainUp(op)) && Harmless(Down42())
    ensures Harmless(Up42())
  {
  }

  lemma Traits43()
    ensures (forall op :: op in Up43() ==> PlainUp(op)) && Harmless(Down43())
  {
    hide OWNER_FK, HEAD_FK, FAMILY_FK;
  }

  lemma Traits44()
    ensures (forall op :: op in Up44() ==> PlainUp(op)) && Harmless(Down44())
  {
    hide PLAN, POLICY, POLICY_CHECK, ALLOWED, REMOVED;
  }

  /** All upgrades but two are plain, and all downgrades but two never look at rows. */
  lemma Traits(k: int, w: Widths)
    requires 34 <= k <= 44 && k != 40
    ensures (forall op :: op in Up(k, w) ==> PlainUp(op)) && Harmless(Down(k))
    ensures k != 39 && k != 43 && k != 44 ==> Harmless(Up(k, w))
  {
    hide PlainUp, NeverFailsOnData, Up33, Up34, Up35, Up36, Up37, Up38, Up39, Up40, Up41, Up42, Up43, Up44,
      Down33, Down34, Down35, Down36, Down37, Down38, Down39, Down40, Down41, Down42, Down43, Down44;
    match k
    case 34 => Traits34();
    case 35 => Traits35(w);
    case 36 => Traits36();
    case 37 => Traits37(w);
    case 38 => Traits38(w);
    case 39 => Traits39();
    case 41 => Traits41();
    case 42 => Traits42();
    case 43 => Traits43();
    case 44 => Traits44();
  }
}

/**
 The schemas the chain builds, revision by revision, on a schema of 0032, and what the widths of the two
 columns that 0033 and 0040 alter mean for them.
 */
module Bases {
  import opened Database
  import opened Preservation
  import opened Revisions
  import opened Scripts
  import opened Hazards
  import opened ColumnTypes

  const FIRST: int := 32
  const HEAD: int := 44

  /** The schema the upgrades build, step by step, on a schema of revision 0032. */
  function SchemaAt(k: int, base: Db, w: Widths): Outcome
    requires FIRST <= k
    decreases k
  {
    if k == FIRST then Done(base)
    else
      var before := SchemaAt(k - 1, base, w);
      if before.Failed? then before else Run(Up(k, w), before.db)
  }

  /**
   A schema of revision 0032 on which the whole chain runs when it is empty. The two columns that 0033
   and 0040 alter are VARCHARs of any width: the tables are built from live enums, so a fresh build has
   them as wide as today's longest member, an old database as wide as the migrations declare.
   */
  predicate IsBase(base: Db, w: Widths)
  {
    && Valid(base) && Schema(base) == base
    && VarcharAt(base, REFERENCES, ROLE) && VarcharAt(base, EXPORT, EXPORT_TYPE)
    && forall k :: FIRST <= k <= HEAD ==> SchemaAt(k, base, w).Done?
  }

  /**
   The database is at revision `k`: it has the schema that the chain builds from `base` up to there,
   and its rows satisfy it.
   */
  predicate IsAt(k: int, d: Db, base: Db, w: Widths)
  {
    FIRST <= k <= HEAD && Valid(d) && SchemaAt(k, base, w) == Done(Schema(d))
  }

  lemma ReachedSchema(k: int, base: Db, w: Widths)
    requires IsBase(base, w) && FIRST <= k <= HEAD
    ensures SchemaAt(k, base, w).Done?
  {
    hide Valid, Schema, Run, Up, VarcharAt;
  }

  // ---- the two altered columns

  /** Where revision `k` alters a type, the column has the type it declares as existing. */
  predicate DeclaredWidth(k: int, d: Db)
  {
    && (k == 33 ==> HasColumn(d, REFERENCES, ROLE) && d.tables[REFERENCES].columns[ROLE].typ == Varchar(18))
    && (k == 40 ==> HasColumn(d, EXPORT, EXPORT_TYPE) && d.tables[EXPORT].columns[EXPORT_TYPE].typ == Varchar(13))
  }

  /** The database with the column that revision `k` alters cut back to the width it declares. */
  function Redeclared(k: int, d: Db): Db
  {
    if k == 33 && HasColumn(d, REFERENCES, ROLE) then Retype(d, REFERENCES, ROLE, Varchar(18))
    else if k == 40 && HasColumn(d, EXPORT, EXPORT_TYPE) then Retype(d, EXPORT, EXPORT_TYPE, Varchar(13))
    else d
  }

  predicate HasAltered(d: Db)
  {
    HasColumn(d, REFERENCES, ROLE) && HasColumn(d, EXPORT, EXPORT_TYPE)
  }

  lemma AlteredApart()
    ensures REFERENCES != EXPORT
  {
    assert |REFERENCES| == 28 && |EXPORT| == 15;
  }

  /** Cutting a width back changes nothing exactly where it is the declared one. */
  lemma RedeclaredSameExactly(k: int, d: Db)
    requires HasAltered(d)
    ensures Redeclared(k, d) == d <==> DeclaredWidth(k, d)
  {
    hide REFERENCES, ROLE, EXPORT, EXPORT_TYPE, Retype;
    RetypeSameExactly(d, REFERENCES, ROLE, Varchar(18));
    RetypeSameExactly(d, EXPORT, EXPORT_TYPE, Varchar(13));
  }

  lemma RedeclaredWidths(k: int, j: int, d: Db)
    requires HasAltered(d)
    ensures HasAltered(Redeclared(k, d)) && DeclaredWidth(k, Redeclared(k, d))
    ensures DeclaredWidth(j, d) ==> DeclaredWidth(j, Redeclared(k, d))
  {
    AlteredApart();
    hide REFERENCES, ROLE, EXPORT, EXPORT_TYPE, Retype;
    RetypeKeepsColumns(d, REFERENCES, ROLE, Varchar(18));
    RetypeKeepsColumns(d, EXPORT, EXPORT_TYPE, Varchar(13));
  }

  lemma RedeclaredVarchars(k: int, d: Db)
    requires VarcharAt(d, REFERENCES, ROLE) && VarcharAt(d, EXPORT, EXPORT_TYPE)
    ensures VarcharAt(Redeclared(k, d), REFERENCES, ROLE) && VarcharAt(Redeclared(k, d), EXPORT, EXPORT_TYPE)
  {
    hide REFERENCES, ROLE, EXPORT, EXPORT_TYPE, Retype;
    RetypeKeepsColumns(d, REFERENCES, ROLE, Varchar(18));
    RetypeKeepsColumns(d, EXPORT, EXPORT_TYPE, Varchar(13));
  }

  lemma RedeclaredSchema(k: int, d: Db)
    requires HasAltered(d)
    ensures HasAltered(Schema(d)) && Schema(Redeclared(k, d)) == Redeclared(k, Schema(d))
  {
    hide REFERENCES, ROLE, EXPORT, EXPORT_TYPE, Retype, Schema, HasColumn;
    RetypedSchema(d, REFERENCES, ROLE, Varchar(18));
    RetypedSchema(d, EXPORT, EXPORT_TYPE, Varchar(13));
  }

  lemma DeclaredOnSchema(k: int, d: Db)
    ensures DeclaredWidth(k, Schema(d)) <==> DeclaredWidth(k, d)
    ensures HasAltered(Schema(d)) <==> HasAltered(d)
  {
    hide REFERENCES, ROLE, EXPORT, EXPORT_TYPE;
  }

  /** No revision but these two alters a column. */
  lemma NothingAltered(k: int, w: Widths, t: string, c: string)
    requires 33 <= k <= 44 && (k == 33 ==> t == EXPORT) && (k == 40 ==> t == REFERENCES)
    ensures AllUp(Up(k, w)) && forall op :: op in Up(k, w) ==> !Alters(op, t, c)
  {
    AlteredApart();
    hide REFERENCES, ROLE, EXPORT, EXPORT_TYPE;
    if k == 33 || k == 40 {
    } else {
      Traits(k, w);
      DownUndoesUp(k, w);
      hide Up, Down, Inverses, Harmless;
      forall op | op in Up(k, w)
        ensures !Alters(op, t, c)
      {
        assert PlainUp(op);
      }
    }
  }

  /** Any other revision finds a changed width as it was and leaves it so. */
  lemma StepPastRedeclared(j: int, k: int, s: Db, w: Widths)
    requires 33 <= k <= 44 && j != k && Schema(s) == s && HasAltered(s) && Run(Up(k, w), s).Done?
    ensures HasAltered(Run(Up(k, w), s).db)
    ensures Run(Up(k, w), Redeclared(j, s)) == Done(Redeclared(j, Run(Up(k, w), s).db))
    ensures DeclaredWidth(j, Run(Up(k, w), s).db) <==> DeclaredWidth(j, s)
  {
    hide REFERENCES, ROLE, EXPORT, EXPORT_TYPE, Retype, Up, Run, Schema, HasColumn, Alters;
    AllColumnsStay(k, s, w);
    if j == 33 {
      NothingAltered(k, w, REFERENCES, ROLE);
      RetypeCommutesRun(Up(k, w), s, REFERENCES, ROLE, Varchar(18));
    } else if j == 40 {
      NothingAltered(k, w, EXPORT, EXPORT_TYPE);
      RetypeCommutesRun(Up(k, w), s, EXPORT, EXPORT_TYPE, Varchar(13));
    }
  }

  lemma AllColumnsStay(k: int, d: Db, w: Widths)
    requires 33 <= k <= 44 && HasAltered(d) && Run(Up(k, w), d).Done?
    ensures HasAltered(Run(Up(k, w), d).db)
  {
    DownUndoesUp(k, w);
    hide Up, Run, Down, Inverses, AllUp, AllDown, REFERENCES, ROLE, EXPORT, EXPORT_TYPE;
    RunPreserves(Up(k, w), d);
    assert Includes(d.tables[REFERENCES], Run(Up(k, w), d).db.tables[REFERENCES]);
    assert Includes(d.tables[EXPORT], Run(Up(k, w), d).db.tables[EXPORT]);
  }

  /** The revision that alters the column overwrites whatever width it finds. */
  lemma StepOverRedeclared(k: int, d: Db, w: Widths)
    requires 33 <= k <= 44
    ensures Run(Up(k, w), Redeclared(k, d)) == Run(Up(k, w), d)
  {
    hide REFERENCES, ROLE, EXPORT, EXPORT_TYPE, Retype, Run, Apply, HasColumn, Up34, Up35, Up36, Up37, Up38, Up39, Up41,
      Up42, Up43, Up44;
    if k == 33 && HasColumn(d, REFERENCES, ROLE) {
      RetypeAbsorbed(d, REFERENCES, ROLE, Varchar(18), Varchar(18), Varchar(25));
      RunOne(Up33()[0], d);
      RunOne(Up33()[0], Redeclared(33, d));
    } else if k == 40 && HasColumn(d, EXPORT, EXPORT_TYPE) {
      RetypeAbsorbed(d, EXPORT, EXPORT_TYPE, Varchar(13), Varchar(13), Varchar(24));
      RunOne(Up40()[0], d);
      RunOne(Up40()[0], Redeclared(40, d));
    }
  }

  /**
   What a changed width in the base means for the schemas built on it: below the revision that alters
   the column they differ in that width and nothing else, from there on not at all.
   */
  lemma {:induction false} SchemaOfRedeclared(j: int, k: int, base: Db, w: Widths)
    requires IsBase(base, w) && FIRST <= k <= HEAD && 33 <= j <= 44
    ensures SchemaAt(k, base, w).Done? && HasAltered(SchemaAt(k, base, w).db)
    ensures Schema(SchemaAt(k, base, w).db) == SchemaAt(k, base, w).db
    ensures SchemaAt(k, Redeclared(j, base), w)
         == if k < j then Done(Redeclared(j, SchemaAt(k, base, w).db)) else SchemaAt(k, base, w)
    ensures k < j ==> (DeclaredWidth(j, SchemaAt(k, base, w).db) <==> DeclaredWidth(j, base))
    decreases k
  {
    hide IsBase, Run, Up, Redeclared, DeclaredWidth, HasAltered, Schema, Valid;
    BaseFacts(base, w);
    if k > FIRST {
      SchemaOfRedeclared(j, k - 1, base, w);
      ReachedSchema(k, base, w);
      var s := SchemaAt(k - 1, base, w).db;
      AllColumnsStay(k, s, w);
      RunOnSchema(Up(k, w), s);
      if k < j {
        StepPastRedeclared(j, k, s, w);
      } else if k == j {
        StepOverRedeclared(k, s, w);
      }
    }
  }

  lemma BaseFacts(base: Db, w: Widths)
    requires IsBase(base, w)
    ensures Valid(base) && Schema(base) == base && HasAltered(base)
  {
    hide Valid, Schema;
  }

  /** A base with one width cut back is a base too. */
  lemma RedeclaredIsBase(j: int, base: Db, w: Widths)
    requires IsBase(base, w) && 33 <= j <= 44
    ensures IsBase(Redeclared(j, base), w)
  {
    hide SchemaAt, Valid, Schema, Redeclared, VarcharAt, HasAltered;
    BaseFacts(base, w);
    RedeclaredVarchars(j, base);
    RedeclaredSchema(j, base);
    RedeclaredValid(j, base);
    forall k | FIRST <= k <= HEAD
      ensures SchemaAt(k, Redeclared(j, base), w).Done?
    {
      SchemaOfRedeclared(j, k, base, w);
    }
  }

  lemma RedeclaredValid(j: int, base: Db)
    requires Valid(base) && Schema(base) == base && HasAltered(base)
    ensures Valid(Redeclared(j, base))
  {
    NoRows(base, REFERENCES);
    NoRows(base, EXPORT);
    hide Valid, Schema, Retype, REFERENCES, ROLE, EXPORT, EXPORT_TYPE;
    if j == 33 {
      RetypeValid(base, REFERENCES, ROLE, Varchar(18));
    } else if j == 40 {
      RetypeValid(base, EXPORT, EXPORT_TYPE, Varchar(13));
    }
  }

  lemma NoRows(base: Db, t: string)
    requires Schema(base) == base && t in base.tables
    ensures base.tables[t].rows == []
  {
    assert Schema(base).tables[t].rows == [];
  }
}
