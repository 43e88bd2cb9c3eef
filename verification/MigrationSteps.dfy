/** One revision up or down: where it lands, when it goes through, and when down takes back up. */
module Steps {
  import opened Database
  import opened Preservation
  import opened Revisions
  import opened Scripts
  import opened Hazards
  import opened ColumnTypes
  import opened Bases

  // ---- one step

  /** Found as declared, every upgrade can be taken back statement by statement. */
  lemma UpUndoable(k: int, w: Widths, d: Db)
    requires 33 <= k <= 44 && DeclaredWidth(k, d) && Run(Up(k, w), d).Done?
    ensures UndoableRun(Up(k, w), d)
  {
    if k == 33 || k == 40 {
      hide REFERENCES, ROLE, EXPORT, EXPORT_TYPE;
    } else {
      Traits(k, w);
      hide Up, DeclaredWidth;
      PlainUndoable(Up(k, w), d);
    }
  }

  /** A successful upgrade lands on the next revision and touches no value that was there. */
  lemma UpLands(k: int, d: Db, base: Db, w: Widths)
    requires IsAt(k, d, base, w) && k < HEAD && Run(Up(k + 1, w), d).Done?
    ensures IsAt(k + 1, Run(Up(k + 1, w), d).db, base, w)
    ensures Extends(d, Run(Up(k + 1, w), d).db)
  {
    hide Valid, Schema, Extends, Run, Up, Down, Inverses, AllUp, AllDown;
    var ops := Up(k + 1, w);
    DownUndoesUp(k + 1, w);
    RunOnSchema(ops, d);
    RunValid(ops, d);
    RunPreserves(ops, d);
  }

  /**
   A successful downgrade lands on the previous revision, on the schema that the chain builds from the
   base with the declared width, and keeps every value that is left.
   */
  lemma DownLands(k: int, d: Db, base: Db, w: Widths)
    requires IsBase(base, w) && IsAt(k, d, base, w) && k > FIRST && Run(Down(k), d).Done?
    ensures IsAt(k - 1, Run(Down(k), d).db, Redeclared(k, base), w)
    ensures Extends(Run(Down(k), d).db, d)
  {
    hide Valid, Schema, Extends, Run, Up, Down, Inverses, AllUp, AllDown, Redeclared;
    DownUndoesUp(k, w);
    RunOnSchema(Down(k), d);
    RunValid(Down(k), d);
    RunPreserves(Down(k), d);
    SchemaSteps(k, d, base, w);
  }

  /** On schemas, down leads from each revision's schema to the one before, with the declared width. */
  lemma SchemaSteps(k: int, d: Db, base: Db, w: Widths)
    requires IsBase(base, w) && FIRST < k <= HEAD && SchemaAt(k, base, w) == Done(Schema(d))
    ensures SchemaAt(k - 1, base, w).Done?
    ensures Run(Down(k), Schema(d)) == SchemaAt(k - 1, Redeclared(k, base), w)
  {
    hide IsBase, Schema, Run, Up, Down, Inverses, AllUp, AllDown, DeclaredWidth, UndoableRun, Valid, Redeclared, HasAltered;
    var declared := Redeclared(k, base);
    RedeclaredIsBase(k, base, w);
    SchemaOfRedeclared(k, k - 1, base, w);
    SchemaOfRedeclared(k, k, base, w);
    SchemaValid(k - 1, declared, w);
    var s := SchemaAt(k - 1, declared, w).db;
    RedeclaredWidths(k, k, SchemaAt(k - 1, base, w).db);
    DownUndoesUp(k, w);
    UpUndoable(k, w, s);
    UndoScript(Up(k, w), s);
  }

  lemma {:induction false} SchemaValid(k: int, base: Db, w: Widths)
    requires IsBase(base, w) && FIRST <= k <= HEAD
    ensures SchemaAt(k, base, w).Done? && Valid(SchemaAt(k, base, w).db)
    decreases k
  {
    hide Schema, Run, Up, VarcharAt, Valid;
    ReachedSchema(k, base, w);
    if k > FIRST {
      SchemaValid(k - 1, base, w);
      RunValid(Up(k, w), SchemaAt(k - 1, base, w).db);
    }
  }

  // ---- when a step goes through

  lemma {:induction false} CountZero(rows: seq<Row>, col: string, guard: Guard)
    ensures CountMatching(rows, col, guard) == 0 <==> forall i :: 0 <= i < |rows| ==> !Matches(Val(rows[i], col), guard)
  {
    hide Matches;
    if rows != [] {
      CountZero(rows[1..], col, guard);
    }
  }

  predicate PoliciesAllowed(d: Db)
  {
    PLAN in d.tables && forall i :: 0 <= i < |d.tables[PLAN].rows| ==> CheckPasses(Val(d.tables[PLAN].rows[i], POLICY), ALLOWED)
  }

  /** Both counts of 0044 are zero exactly when adding its CHECK would succeed. */
  lemma GuardsAreExact(rows: seq<Row>)
    ensures CountMatching(rows, POLICY, HoldsValue(REMOVED)) == 0
            && CountMatching(rows, POLICY, Outside(ALLOWED + {REMOVED})) == 0
        <==> forall i :: 0 <= i < |rows| ==> CheckPasses(Val(rows[i], POLICY), ALLOWED)
  {
    hide POLICY;
    CountZero(rows, POLICY, HoldsValue(REMOVED));
    CountZero(rows, POLICY, Outside(ALLOWED + {REMOVED}));
    assert REMOVED !in ALLOWED;
    hide REMOVED, ALLOWED, CountMatching;
    forall i | 0 <= i < |rows|
      ensures CheckPasses(Val(rows[i], POLICY), ALLOWED) <==>
              !Matches(Val(rows[i], POLICY), HoldsValue(REMOVED)) && !Matches(Val(rows[i], POLICY), Outside(ALLOWED + {REMOVED}))
    {
    }
  }

  lemma RunCons(op: Op, rest: seq<Op>, d: Db)
    ensures Run([op] + rest, d) == if Apply(op, d).Failed? then Apply(op, d) else Run(rest, Apply(op, d).db)
    ensures DataOkRun([op] + rest, d) <==> (SchemaOk(op, d) ==> DataOk(op, d) && DataOkRun(rest, Effect(op, d)))
  {
    hide Apply, SchemaOk, DataOk, Effect;
    assert ([op] + rest)[1..] == rest;
  }

  lemma RunOf3(a: Op, b: Op, c: Op, d: Db)
    ensures Run([a, b, c], d) ==
            if Apply(a, d).Failed? then Apply(a, d)
            else if Apply(b, Apply(a, d).db).Failed? then Apply(b, Apply(a, d).db)
            else Apply(c, Apply(b, Apply(a, d).db).db)
  {
    hide Apply;
    assert [a, b, c] == [a] + [b, c] && [b, c] == [b] + [c];
    RunCons(a, [b, c], d);
    if Apply(a, d).Done? {
      var d1 := Apply(a, d).db;
      RunCons(b, [c], d1);
      if Apply(b, d1).Done? {
        RunOne(c, Apply(b, d1).db);
      }
    }
  }

  lemma DataOkOf3(a: Op, b: Op, c: Op, d: Db)
    requires SchemaOk(a, d) && SchemaOk(b, Effect(a, d)) && SchemaOk(c, Effect(b, Effect(a, d)))
    ensures DataOkRun([a, b, c], d) <==>
            DataOk(a, d) && DataOk(b, Effect(a, d)) && DataOk(c, Effect(b, Effect(a, d)))
  {
    hide SchemaOk, DataOk, Effect;
    assert [a, b, c] == [a] + [b, c] && [b, c] == [b] + [c] && [c] + [] == [c];
    RunCons(a, [b, c], d);
    RunCons(b, [c], Effect(a, d));
    RunCons(c, [], Effect(b, Effect(a, d)));
  }

  lemma SchemaOf3(a: Op, b: Op, c: Op, d: Db)
    requires Run([a, b, c], Schema(d)).Done?
    ensures SchemaOk(a, d) && SchemaOk(b, Effect(a, d)) && SchemaOk(c, Effect(b, Effect(a, d)))
  {
    hide SchemaOk, DataOk, Effect, Schema, Run;
    RunOf3(a, b, c, Schema(d));
    SchemaDecides(a, d);
    SchemaOfEffect(a, d);
    SchemaDecides(b, Effect(a, d));
    SchemaOfEffect(b, Effect(a, d));
    SchemaDecides(c, Effect(b, Effect(a, d)));
  }

  /**
   What 0044 does to any database with the column and without the constraint: a NET row is reported
   first, then any other value outside the enum, and otherwise the CHECK goes in. No row changes.
   */
  lemma PolicyUpgrade(d: Db)
    requires HasColumn(d, PLAN, POLICY) && POLICY_CHECK !in d.tables[PLAN].constraints
    ensures var nets := CountMatching(d.tables[PLAN].rows, POLICY, HoldsValue(REMOVED));
            var others := CountMatching(d.tables[PLAN].rows, POLICY, Outside(ALLOWED + {REMOVED}));
            && (nets > 0 ==> Run(Up44(), d) == Failed(Halted(HoldsValue(REMOVED), nets)))
            && (nets == 0 && others > 0 ==> Run(Up44(), d) == Failed(Halted(Outside(ALLOWED + {REMOVED}), others)))
    ensures Run(Up44(), d).Done? <==> PoliciesAllowed(d)
    ensures Run(Up44(), d).Done? ==>
              var after := Run(Up44(), d).db;
              && after.tables.Keys == d.tables.Keys
              && forall t :: t in d.tables ==> after.tables[t].rows == d.tables[t].rows
  {
    GuardsAreExact(d.tables[PLAN].rows);
    RunOf3(Up44()[0], Up44()[1], Up44()[2], d);
    hide Run, CountMatching, CheckPasses, PLAN, POLICY, POLICY_CHECK, ALLOWED, REMOVED;
  }

  /** The edge's values all point at existing rows, or are NULL. */
  predicate EdgeOk(d: Db, t: string, edge: Constraint)
  {
    t in d.tables && Holds(d.tables, d.tables[t].rows, edge)
  }

  predicate NoOrphans(d: Db)
  {
    && EdgeOk(d, REGISTRY, OWNER_EDGE)
    && EdgeOk(d, STRATEGY, HEAD_EDGE)
    && EdgeOk(d, STRATEGY, FAMILY_EDGE)
  }

  /** Adding a constraint changes no row, so it changes no other constraint's verdict. */
  lemma AddingKeepsVerdicts(n: string, t: string, c: Constraint, d: Db, u: string, edge: Constraint)
    requires SchemaOk(AddConstraint(n, t, c), d)
    ensures EdgeOk(Effect(AddConstraint(n, t, c), d), u, edge) <==> EdgeOk(d, u, edge)
  {
    var d' := Effect(AddConstraint(n, t, c), d);
    assert forall x :: x in d.tables ==> d'.tables[x].rows == d.tables[x].rows;
    hide Effect, SameKey;
    if u in d.tables {
      match edge
      case PrimaryKey(_) =>
      case Unique(_) =>
      case Check(_, _) =>
      case ForeignKey(_, refTable, _) =>
    }
  }

  lemma EdgesChecked(a: Op, b: Op, c: Op, d: Db)
    requires a.AddConstraint? && b.AddConstraint? && c.AddConstraint?
    requires Run([a, b, c], Schema(d)).Done?
    ensures DataOkRun([a, b, c], d) <==> EdgeOk(d, a.table, a.c) && EdgeOk(d, b.table, b.c) && EdgeOk(d, c.table, c.c)
  {
    SchemaOf3(a, b, c, d);
    DataOkOf3(a, b, c, d);
    var d1 := Effect(a, d);
    var d2 := Effect(b, d1);
    AddingKeepsVerdicts(a.name, a.table, a.c, d, b.table, b.c);
    AddingKeepsVerdicts(a.name, a.table, a.c, d, c.table, c.c);
    AddingKeepsVerdicts(b.name, b.table, b.c, d1, c.table, c.c);
    hide Holds, WellFormed, Effect, DataOkRun, Run;
  }

  lemma AddedColumnIsNull(t: string, c: string, def: Column, d: Db)
    requires SchemaOk(AddColumn(t, c, def), d) && def.default.NoDefault?
    ensures var d1 := Effect(AddColumn(t, c, def), d);
            t in d1.tables && c in d1.tables[t].columns && AllNull(d1.tables[t].rows, c)
  {
  }

  predicate AllNull(rows: seq<Row>, c: string)
  {
    forall i :: 0 <= i < |rows| ==> Val(rows[i], c).Null?
  }

  lemma StaysNull(d: Db, d1: Db, t: string, c: string)
    requires Extends(d, d1) && t in d.tables && c in d.tables[t].columns && AllNull(d.tables[t].rows, c)
    ensures t in d1.tables && c in d1.tables[t].columns && AllNull(d1.tables[t].rows, c)
  {
    assert Includes(d.tables[t], d1.tables[t]);
    assert forall i :: 0 <= i < |d1.tables[t].rows| ==> Val(d.tables[t].rows[i], c) == Val(d1.tables[t].rows[i], c);
  }

  /** 0039 puts its foreign key on a column it has just added, so no existing row can violate it. */
  lemma CancellationNeverFails(d: Db)
    ensures DataOkRun(Up39(), d)
  {
    hide RUN, CANCELLED_BY, CANCEL_FK;
    var ops := Up39();
    assert ops == [ops[0]] + ([ops[1]] + ([ops[2]] + ([ops[3]] + [])));
    RunCons(ops[0], [ops[1]] + ([ops[2]] + ([ops[3]] + [])), d);
    if SchemaOk(ops[0], d) {
      var d1 := Effect(ops[0], d);
      RunCons(ops[1], [ops[2]] + ([ops[3]] + []), d1);
      if SchemaOk(ops[1], d1) {
        var d2 := Effect(ops[1], d1);
        AddedColumnIsNull(RUN, CANCELLED_BY, Nullable(Varchar(40)), d1);
        RunCons(ops[2], [ops[3]] + [], d2);
        if SchemaOk(ops[2], d2) {
          var d3 := Effect(ops[2], d2);
          UpExtends(ops[2], d2);
          StaysNull(d2, d3, RUN, CANCELLED_BY);
          RunCons(ops[3], [], d3);
        }
      }
    }
    hide Effect, Extends, WellFormed, DataOkRun;
  }

  /** What the rows must satisfy for the upgrade to revision `k`. */
  predicate UpCondition(k: int, d: Db)
  {
    && (k == 33 ==> NoneLonger(d, REFERENCES, ROLE, 25))
    && (k == 40 ==> NoneLonger(d, EXPORT, EXPORT_TYPE, 24))
    && (k == 43 ==> NoOrphans(d))
    && (k == 44 ==> PoliciesAllowed(d))
  }

  /** What the rows must satisfy for the downgrade from revision `k`. */
  predicate DownCondition(k: int, d: Db)
  {
    && (k == 33 ==> NoneLonger(d, REFERENCES, ROLE, 18))
    && (k == 40 ==> NoneLonger(d, EXPORT, EXPORT_TYPE, 13))
  }

  /** No row holds a longer text in the column. */
  predicate NoneLonger(d: Db, t: string, c: string, n: nat)
  {
    t in d.tables && forall i :: 0 <= i < |d.tables[t].rows| ==> Short(Val(d.tables[t].rows[i], c), n)
  }

  predicate Short(v: Value, n: nat)
  {
    v.Text? ==> |v.s| <= n
  }

  /** Giving a VARCHAR of a valid database another width fails exactly on a longer value. */
  lemma Fitting(t: string, c: string, d: Db, n: nat)
    requires Valid(d) && VarcharAt(d, t, c)
    ensures FitsNewType(d, t, c, Varchar(n)) <==> NoneLonger(d, t, c, n)
  {
    assert TableValid(d.tables, d.tables[t]);
    forall i | 0 <= i < |d.tables[t].rows|
      ensures Conforms(Val(d.tables[t].rows[i], c), d.tables[t].columns[c].(typ := Varchar(n)))
          <==> Short(Val(d.tables[t].rows[i], c), n)
    {
      assert RowFits(d.tables[t].rows[i], d.tables[t].columns);
    }
  }

  lemma FittingRun(t: string, c: string, d: Db, existing: ColType, n: nat)
    requires Valid(d) && VarcharAt(d, t, c)
    ensures DataOkRun([AlterType(t, c, existing, Varchar(n))], d) <==> NoneLonger(d, t, c, n)
  {
    var op := AlterType(t, c, existing, Varchar(n));
    assert [op] + [] == [op];
    RunCons(op, [], d);
    Fitting(t, c, d, n);
    hide Valid, FitsNewType, NoneLonger, Effect;
  }

  /** No value of a valid database is longer than its column is wide. */
  lemma WideEnough(t: string, c: string, d: Db, from: nat, n: nat)
    requires Valid(d) && HasColumn(d, t, c) && d.tables[t].columns[c].typ == Varchar(from) && from <= n
    ensures NoneLonger(d, t, c, n)
  {
    assert TableValid(d.tables, d.tables[t]);
    forall i | 0 <= i < |d.tables[t].rows|
      ensures Short(Val(d.tables[t].rows[i], c), n)
    {
      assert RowFits(d.tables[t].rows[i], d.tables[t].columns);
    }
  }

  predicate BothVarchars(d: Db)
  {
    VarcharAt(d, REFERENCES, ROLE) && VarcharAt(d, EXPORT, EXPORT_TYPE)
  }

  lemma VarcharsOnSchema(d: Db)
    ensures BothVarchars(Schema(d)) <==> BothVarchars(d)
  {
    hide REFERENCES, ROLE, EXPORT, EXPORT_TYPE;
  }

  /** The two columns are VARCHARs at every revision. */
  lemma {:induction false} VarcharsStay(k: int, base: Db, w: Widths)
    requires IsBase(base, w) && FIRST <= k <= HEAD
    ensures SchemaAt(k, base, w).Done? && BothVarchars(SchemaAt(k, base, w).db)
    decreases k
  {
    hide Run, Up, REFERENCES, ROLE, EXPORT, EXPORT_TYPE, Schema, Valid, VarcharAt, HasColumn, Alters;
    ReachedSchema(k, base, w);
    if k > FIRST {
      VarcharsStay(k - 1, base, w);
      SchemaOfRedeclared(44, k - 1, base, w);
      StepKeepsVarchars(k, SchemaAt(k - 1, base, w).db, w);
    }
  }

  lemma StepKeepsVarchars(k: int, s: Db, w: Widths)
    requires 33 <= k <= 44 && Schema(s) == s && BothVarchars(s) && Run(Up(k, w), s).Done?
    ensures BothVarchars(Run(Up(k, w), s).db)
  {
    hide Run, REFERENCES, ROLE, EXPORT, EXPORT_TYPE, Schema, Valid, Alters, Up34, Up35, Up36, Up37, Up38, Up39, Up41,
      Up42, Up43, Up44;
    if k == 33 {
      RunOne(Up33()[0], s);
    } else {
      NothingAltered(k, w, REFERENCES, ROLE);
      RetypeCommutesRun(Up(k, w), s, REFERENCES, ROLE, Varchar(0));
    }
    if k == 40 {
      RunOne(Up40()[0], s);
    } else {
      NothingAltered(k, w, EXPORT, EXPORT_TYPE);
      RetypeCommutesRun(Up(k, w), s, EXPORT, EXPORT_TYPE, Varchar(0));
    }
  }

  lemma PolicySchema(d: Db)
    requires Run(Up44(), Schema(d)).Done?
    ensures HasColumn(d, PLAN, POLICY) && POLICY_CHECK !in d.tables[PLAN].constraints
  {
    hide PLAN, POLICY, POLICY_CHECK, ALLOWED, REMOVED, Run;
    SchemaOf3(Up44()[0], Up44()[1], Up44()[2], d);
  }

  lemma PolicyPart(d: Db)
    requires Run(Up44(), Schema(d)).Done?
    ensures DataOkRun(Up44(), d) <==> PoliciesAllowed(d)
  {
    hide PLAN, POLICY, POLICY_CHECK, ALLOWED, REMOVED, Run, Up44, DataOkRun, CountMatching, PoliciesAllowed;
    PolicySchema(d);
    RunOnSchema(Up44(), d);
    PolicyUpgrade(d);
  }

  lemma EdgesPart(d: Db)
    requires Run(Up43(), Schema(d)).Done?
    ensures DataOkRun(Up43(), d) <==> NoOrphans(d)
  {
    hide OWNER_FK, HEAD_FK, FAMILY_FK, OWNER_EDGE, HEAD_EDGE, FAMILY_EDGE, Run, DataOkRun, EdgeOk;
    EdgesChecked(Up43()[0], Up43()[1], Up43()[2], d);
  }

  lemma RolesFit(d: Db)
    requires Valid(d) && BothVarchars(d)
    ensures DataOkRun(Up33(), d) <==> NoneLonger(d, REFERENCES, ROLE, 25)
  {
    hide REFERENCES, ROLE, NoneLonger, Valid, DataOkRun;
    FittingRun(REFERENCES, ROLE, d, Varchar(18), 25);
  }

  lemma ExportsFit(d: Db)
    requires Valid(d) && BothVarchars(d)
    ensures DataOkRun(Up40(), d) <==> NoneLonger(d, EXPORT, EXPORT_TYPE, 24)
  {
    hide EXPORT, EXPORT_TYPE, NoneLonger, Valid, DataOkRun;
    FittingRun(EXPORT, EXPORT_TYPE, d, Varchar(13), 24);
  }

  lemma UpDataOk(k: int, w: Widths, d: Db)
    requires 33 <= k <= 44 && Valid(d) && BothVarchars(d) && Run(Up(k, w), Schema(d)).Done?
    ensures DataOkRun(Up(k, w), d) <==> UpCondition(k, d)
  {
    hide Run, DataOkRun, Valid, VarcharAt, Schema, NoneLonger, NoOrphans, PoliciesAllowed, Up33, Up34, Up35, Up36, Up37, Up38,
      Up39, Up40, Up41, Up42, Up43, Up44, Harmless;
    if k == 33 {
      RolesFit(d);
    } else if k == 40 {
      ExportsFit(d);
    } else if k == 39 {
      CancellationNeverFails(d);
    } else if k == 43 {
      EdgesPart(d);
    } else if k == 44 {
      PolicyPart(d);
    } else {
      Traits(k, w);
      HarmlessRuns(Up(k, w), d);
    }
  }

  /**
   From a database at its revision an upgrade fails on data in four places only: 0033 and 0040 on a value
   longer than the width they set, 0043 on a row whose reference points nowhere, 0044 on a policy outside
   the surviving two.
   */
  lemma UpSucceedsExactly(k: int, d: Db, base: Db, w: Widths)
    requires IsBase(base, w) && IsAt(k, d, base, w) && k < HEAD
    ensures Run(Up(k + 1, w), d).Done? <==> UpCondition(k + 1, d)
  {
    hide IsBase, Run, DataOkRun, Schema, Valid, UpCondition, BothVarchars, Up;
    ReachedSchema(k + 1, base, w);
    VarcharsStay(k, base, w);
    VarcharsOnSchema(d);
    RunOnSchema(Up(k + 1, w), d);
    UpDataOk(k + 1, w, d);
  }

  /** The type an upward ALTER leaves behind is the one its script names. */
  lemma AlteredType(t: string, c: string, existing: ColType, to: ColType, s: Db, d: Db)
    requires Run([AlterType(t, c, existing, to)], s) == Done(Schema(d))
    ensures HasColumn(d, t, c) && d.tables[t].columns[c].typ == to
  {
    RunOne(AlterType(t, c, existing, to), s);
    hide Run;
    assert t in Schema(d).tables;
  }

  lemma DownDataOk(k: int, d: Db, s: Db, w: Widths)
    requires 33 <= k <= 44 && Valid(d) && Run(Up(k, w), s) == Done(Schema(d))
    ensures DataOkRun(Down(k), d) <==> DownCondition(k, d)
  {
    hide Valid, Run, DataOkRun, Schema, NoneLonger, REFERENCES, ROLE, EXPORT, EXPORT_TYPE, Harmless;
    if k == 33 {
      AlteredType(REFERENCES, ROLE, Varchar(18), Varchar(25), s, d);
      FittingRun(REFERENCES, ROLE, d, Varchar(25), 18);
    } else if k == 40 {
      AlteredType(EXPORT, EXPORT_TYPE, Varchar(13), Varchar(24), s, d);
      FittingRun(EXPORT, EXPORT_TYPE, d, Varchar(24), 13);
    } else {
      Traits(k, w);
      hide Up, Down;
      HarmlessRuns(Down(k), d);
    }
  }

  /**
   A downgrade fails in two places only: 0033 and 0040 on a stored value longer than the width they
   go back to. It is then refused, never truncated.
   */
  lemma DownSucceedsExactly(k: int, d: Db, base: Db, w: Widths)
    requires IsBase(base, w) && IsAt(k, d, base, w) && k > FIRST
    ensures Run(Down(k), d).Done? <==> DownCondition(k, d)
  {
    hide IsBase, Run, DataOkRun, Schema, Valid, DownCondition, Up, Down, Redeclared, HasAltered;
    SchemaSteps(k, d, base, w);
    RedeclaredIsBase(k, base, w);
    ReachedSchema(k - 1, Redeclared(k, base), w);
    RunOnSchema(Down(k), d);
    DownDataOk(k, d, SchemaAt(k - 1, base, w).db, w);
  }

  // ---- down right after up

  lemma SameLengths(small: Db, large: Db, t: string, c: string, n: nat)
    requires Extends(small, large) && HasColumn(small, t, c)
    ensures NoneLonger(small, t, c, n) <==> NoneLonger(large, t, c, n)
  {
    assert Includes(small.tables[t], large.tables[t]);
    assert forall i :: 0 <= i < |small.tables[t].rows| ==>
             Val(small.tables[t].rows[i], c) == Val(large.tables[t].rows[i], c);
  }

  lemma SameDownCondition(k: int, small: Db, large: Db)
    requires Extends(small, large) && HasAltered(small)
    ensures DownCondition(k, small) <==> DownCondition(k, large)
  {
    hide Extends, NoneLonger, REFERENCES, ROLE, EXPORT, EXPORT_TYPE;
    SameLengths(small, large, REFERENCES, ROLE, 18);
    SameLengths(small, large, EXPORT, EXPORT_TYPE, 13);
  }

  /** Where no value is in the way, the database with the declared width is as valid as the one found. */
  lemma CutBackValid(k: int, d: Db)
    requires Valid(d) && BothVarchars(d) && DownCondition(k, d)
    ensures Valid(Redeclared(k, d))
  {
    hide Valid, NoneLonger, FitsNewType, Retype, REFERENCES, ROLE, EXPORT, EXPORT_TYPE;
    if k == 33 {
      Fitting(REFERENCES, ROLE, d, 18);
      RetypeValid(d, REFERENCES, ROLE, Varchar(18));
    } else if k == 40 {
      Fitting(EXPORT, EXPORT_TYPE, d, 13);
      RetypeValid(d, EXPORT, EXPORT_TYPE, Varchar(13));
    }
  }

  /** With the declared width no value can be in the way. */
  lemma DeclaredFits(k: int, d: Db)
    requires Valid(d) && DeclaredWidth(k, d)
    ensures DownCondition(k, d)
  {
    hide Valid, NoneLonger, REFERENCES, ROLE, EXPORT, EXPORT_TYPE;
    if k == 33 {
      WideEnough(REFERENCES, ROLE, d, 18, 18);
    } else if k == 40 {
      WideEnough(EXPORT, EXPORT_TYPE, d, 13, 13);
    }
  }

  /** The two columns of a database at some revision. */
  lemma AtFacts(k: int, d: Db, base: Db, w: Widths)
    requires IsBase(base, w) && IsAt(k, d, base, w)
    ensures BothVarchars(d) && HasAltered(d)
  {
    hide IsBase, Schema, Valid, SchemaAt;
    VarcharsStay(k, base, w);
    VarcharsOnSchema(d);
  }

  /** Undone statement by statement, a script whose widths are cut back first leads back there. */
  lemma BackToRedeclared(k: int, d: Db, w: Widths)
    requires 33 <= k <= 44 && Valid(Redeclared(k, d)) && HasAltered(d) && Run(Up(k, w), d).Done?
    ensures Run(Down(k), Run(Up(k, w), d).db) == Done(Redeclared(k, d))
  {
    hide Valid, Run, Up, Down, Inverses, AllUp, AllDown, DeclaredWidth, UndoableRun, Redeclared, HasAltered;
    RedeclaredWidths(k, k, d);
    StepOverRedeclared(k, d, w);
    DownUndoesUp(k, w);
    UpUndoable(k, w, Redeclared(k, d));
    UndoScript(Up(k, w), Redeclared(k, d));
  }

  /**
   Downgrading right after a successful upgrade, exactly: it is refused when a value is longer than the
   declared width, and otherwise gives the database back with that width, all else being as it was.
   */
  lemma DownAfterUp(k: int, d: Db, base: Db, w: Widths)
    requires IsBase(base, w) && IsAt(k, d, base, w) && k < HEAD && Run(Up(k + 1, w), d).Done?
    ensures var back := Run(Down(k + 1), Run(Up(k + 1, w), d).db);
            && (back.Done? <==> DownCondition(k + 1, d))
            && (back.Done? ==> back.db == Redeclared(k + 1, d))
  {
    hide IsBase, Valid, Run, Up, Down, Redeclared, HasAltered, BothVarchars, DownCondition, Extends, Schema, SchemaAt;
    AtFacts(k, d, base, w);
    UpLands(k, d, base, w);
    var after := Run(Up(k + 1, w), d).db;
    DownSucceedsExactly(k + 1, after, base, w);
    SameDownCondition(k + 1, d, after);
    if DownCondition(k + 1, d) {
      CutBackValid(k + 1, d);
      BackToRedeclared(k + 1, d, w);
    }
  }

  /**
   So it restores the exact database if and only if the column had the width the migration declares as
   existing; at every revision but 0033 and 0040 that is no condition at all.
   */
  lemma WidthRestoredExactly(k: int, d: Db, base: Db, w: Widths)
    requires IsBase(base, w) && IsAt(k, d, base, w) && k < HEAD && Run(Up(k + 1, w), d).Done?
    ensures Run(Down(k + 1), Run(Up(k + 1, w), d).db) == Done(d) <==> DeclaredWidth(k + 1, d)
  {
    hide IsBase, Valid, Run, Up, Down, Redeclared, HasAltered, BothVarchars, DownCondition, SchemaAt, DeclaredWidth;
    AtFacts(k, d, base, w);
    DownAfterUp(k, d, base, w);
    RedeclaredSameExactly(k + 1, d);
    if DeclaredWidth(k + 1, d) {
      DeclaredFits(k + 1, d);
    }
  }

  lemma AtRange(k: int, d: Db, base: Db, w: Widths)
    requires IsAt(k, d, base, w)
    ensures FIRST <= k <= HEAD
  {
  }
}
