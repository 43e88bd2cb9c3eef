/** Changing the type of one column, and how that commutes with everything else a script does. */
module ColumnTypes {
  import opened Database
  import opened Preservation

  /** The column is there and is a VARCHAR, whatever its width. */
  predicate VarcharAt(d: Db, t: string, c: string)
  {
    HasColumn(d, t, c) && d.tables[t].columns[c].typ.Varchar?
  }

  /** The same database with another type for one column. */
  function Retype(d: Db, t: string, c: string, typ: ColType): Db
    requires HasColumn(d, t, c)
  {
    Effect(AlterType(t, c, typ, typ), d)
  }

  predicate Alters(op: Op, t: string, c: string)
  {
    op.AlterType? && op.table == t && op.col == c
  }

  lemma RetypeKeepsColumns(d: Db, t: string, c: string, typ: ColType)
    requires HasColumn(d, t, c)
    ensures forall u, x :: HasColumn(Retype(d, t, c, typ), u, x) <==> HasColumn(d, u, x)
    ensures forall u, x :: HasColumn(d, u, x) ==>
              Retype(d, t, c, typ).tables[u].columns[x].typ
              == if u == t && x == c then typ else d.tables[u].columns[x].typ
  {
  }

  /** Giving a column the type it has changes nothing, and nothing else does. */
  lemma RetypeSameExactly(d: Db, t: string, c: string, typ: ColType)
    requires HasColumn(d, t, c)
    ensures Retype(d, t, c, typ) == d <==> d.tables[t].columns[c].typ == typ
  {
    if d.tables[t].columns[c].typ == typ {
      assert d.tables[t].columns[c := d.tables[t].columns[c].(typ := typ)] == d.tables[t].columns;
    } else {
      RetypeKeepsColumns(d, t, c, typ);
    }
  }

  /** The last type wins. */
  lemma RetypeAbsorbed(d: Db, t: string, c: string, typ: ColType, existing: ColType, to: ColType)
    requires HasColumn(d, t, c)
    ensures Apply(AlterType(t, c, existing, to), Retype(d, t, c, typ)) == Apply(AlterType(t, c, existing, to), d)
    ensures Retype(Retype(d, t, c, typ), t, c, to) == Retype(d, t, c, to)
  {
    var d1 := Retype(d, t, c, typ);
    var column := d.tables[t].columns[c].(typ := to);
    assert d1.tables[t].columns[c := column] == d.tables[t].columns[c := column];
    assert Retype(d1, t, c, to).tables == Retype(d, t, c, to).tables;
    assert FitsNewType(d1, t, c, to) <==> FitsNewType(d, t, c, to);
  }

  lemma RetypeKeepsSchemaOk(op: Op, d: Db, t: string, c: string, typ: ColType)
    requires HasColumn(d, t, c) && IsUp(op) && SchemaOk(op, d)
    ensures SchemaOk(op, Retype(d, t, c, typ))
  {
    var d1 := Retype(d, t, c, typ);
    assert forall u :: u in d.tables <==> u in d1.tables;
    assert forall u :: u in d.tables ==> d1.tables[u].columns.Keys == d.tables[u].columns.Keys
                                         && d1.tables[u].constraints == d.tables[u].constraints;
    hide ColsOf, ReferencedElsewhere;
  }

  /** An upward statement on anything else commutes with the change of type. */
  lemma RetypeCommutes(op: Op, d: Db, t: string, c: string, typ: ColType)
    requires HasColumn(d, t, c) && IsUp(op) && SchemaOk(op, d) && !Alters(op, t, c)
    ensures SchemaOk(op, Retype(d, t, c, typ)) && HasColumn(Effect(op, d), t, c)
    ensures Effect(op, Retype(d, t, c, typ)) == Retype(Effect(op, d), t, c, typ)
    ensures Effect(op, d).tables[t].columns[c].typ == d.tables[t].columns[c].typ
  {
    RetypeKeepsSchemaOk(op, d, t, c, typ);
    var a, b := Effect(op, Retype(d, t, c, typ)), Retype(Effect(op, d), t, c, typ);
    hide ColsOf, WellFormed, ReferencedElsewhere;
    if (op.AlterType? || op.AddColumn?) && op.table == t {
      assert op.col != c;
      assert a.tables[t].columns == b.tables[t].columns;
    }
    assert a.tables == b.tables;
  }

  /** The same over a script, on schemas: it runs as before and leaves the new type where it was put. */
  lemma {:induction false} RetypeCommutesRun(ops: seq<Op>, s: Db, t: string, c: string, typ: ColType)
    requires Schema(s) == s && HasColumn(s, t, c) && AllUp(ops) && Run(ops, s).Done?
    requires forall op :: op in ops ==> !Alters(op, t, c)
    ensures HasColumn(Run(ops, s).db, t, c)
    ensures Run(ops, Retype(s, t, c, typ)) == Done(Retype(Run(ops, s).db, t, c, typ))
    ensures Run(ops, s).db.tables[t].columns[c].typ == s.tables[t].columns[c].typ
  {
    hide SchemaOk, DataOk, Effect, HasColumn, Alters, Schema, Retype;
    if ops != [] {
      assert ops[0] in ops && IsUp(ops[0]);
      RetypeCommutes(ops[0], s, t, c, typ);
      RetypedSchema(s, t, c, typ);
      SchemaDecides(ops[0], s);
      SchemaDecides(ops[0], Retype(s, t, c, typ));
      SchemaOfEffect(ops[0], s);
      RetypeCommutesRun(ops[1..], Effect(ops[0], s), t, c, typ);
    }
  }

  lemma RetypedSchema(d: Db, t: string, c: string, typ: ColType)
    requires HasColumn(d, t, c)
    ensures HasColumn(Schema(d), t, c) && Schema(Retype(d, t, c, typ)) == Retype(Schema(d), t, c, typ)
  {
    SchemaDecides(AlterType(t, c, typ, typ), d);
    SchemaOfEffect(AlterType(t, c, typ, typ), d);
  }

  /** A column may be given any type its rows fit. */
  lemma RetypeValid(d: Db, t: string, c: string, typ: ColType)
    requires Valid(d) && HasColumn(d, t, c) && FitsNewType(d, t, c, typ)
    ensures Valid(Retype(d, t, c, typ))
  {
    EffectValid(AlterType(t, c, typ, typ), d);
  }
}
