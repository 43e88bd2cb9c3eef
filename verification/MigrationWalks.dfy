/**
 Walks through the revisions: what every transactional run over many revisions and every sequence of
 such runs keeps.
 */
module Walks {
  import opened Wrappers
  import opened Database
  import opened Preservation
  import opened Revisions
  import opened Scripts
  import opened ColumnTypes
  import opened Bases
  import opened Steps

  // ---- runs over many revisions

  /** The upgrades after `k` up to `m`, one after the other. */
  function UpTo(k: int, m: int, w: Widths, d: Db): Outcome
    decreases m - k
  {
    if k >= m then Done(d)
    else if Run(Up(k + 1, w), d).Failed? then Run(Up(k + 1, w), d)
    else UpTo(k + 1, m, w, Run(Up(k + 1, w), d).db)
  }

  /** The downgrades from `k` down to `m`. */
  function DownTo(k: int, m: int, d: Db): Outcome
    decreases k - m
  {
    if k <= m then Done(d)
    else if Run(Down(k), d).Failed? then Run(Down(k), d)
    else DownTo(k - 1, m, Run(Down(k), d).db)
  }

  lemma {:induction false} UpToLands(k: int, m: int, d: Db, base: Db, w: Widths)
    requires IsAt(k, d, base, w) && k <= m <= HEAD && UpTo(k, m, w, d).Done?
    ensures IsAt(m, UpTo(k, m, w, d).db, base, w)
    ensures Extends(d, UpTo(k, m, w, d).db)
    decreases m - k
  {
    hide IsAt, Run, Up, Extends;
    if k < m {
      AtRange(k, d, base, w);
      UpLands(k, d, base, w);
      UpToLands(k + 1, m, Run(Up(k + 1, w), d).db, base, w);
      ExtendsTrans(d, Run(Up(k + 1, w), d).db, UpTo(k, m, w, d).db);
    } else {
      ExtendsRefl(d);
    }
  }

  /** The base whose widths are cut back by every revision that a downgrade from `k` to `m` crosses. */
  function CutBack(k: int, m: int, base: Db): Db
    decreases k - m
  {
    if k <= m then base else CutBack(k - 1, m, Redeclared(k, base))
  }

  lemma {:induction false} CutBackIsBase(k: int, m: int, base: Db, w: Widths)
    requires IsBase(base, w) && FIRST <= m <= k <= HEAD
    ensures IsBase(CutBack(k, m, base), w)
    decreases k - m
  {
    hide IsBase, Redeclared;
    if k > m {
      RedeclaredIsBase(k, base, w);
      CutBackIsBase(k - 1, m, Redeclared(k, base), w);
    }
  }

  /** It has the declared width wherever one was crossed, and keeps it where there was one already. */
  lemma {:induction false} CutBackDeclares(k: int, m: int, base: Db, j: int)
    requires HasAltered(base) && (m < j <= k || DeclaredWidth(j, base))
    ensures DeclaredWidth(j, CutBack(k, m, base))
    decreases k - m
  {
    hide Redeclared, HasAltered, DeclaredWidth;
    if k > m {
      RedeclaredWidths(k, j, base);
      CutBackDeclares(k - 1, m, Redeclared(k, base), j);
    }
  }

  lemma {:induction false} DownToLands(k: int, m: int, d: Db, base: Db, w: Widths)
    requires IsBase(base, w) && IsAt(k, d, base, w) && FIRST <= m <= k && DownTo(k, m, d).Done?
    ensures IsAt(m, DownTo(k, m, d).db, CutBack(k, m, base), w)
    ensures Extends(DownTo(k, m, d).db, d)
    decreases k - m
  {
    hide IsBase, IsAt, Run, Down, Extends, Redeclared;
    if k > m {
      AtRange(k, d, base, w);
      DownLands(k, d, base, w);
      RedeclaredIsBase(k, base, w);
      DownToLands(k - 1, m, Run(Down(k), d).db, Redeclared(k, base), w);
      ExtendsTrans(DownTo(k, m, d).db, Run(Down(k), d).db, d);
    } else {
      ExtendsRefl(d);
    }
  }

  lemma {:induction false} DownToAppend(k: int, m: int, d: Db)
    requires m < k && DownTo(k, m + 1, d).Done?
    ensures DownTo(k, m, d) == Run(Down(m + 1), DownTo(k, m + 1, d).db)
    decreases k - m
  {
    hide Run, Down;
    if k > m + 1 {
      DownToAppend(k - 1, m, Run(Down(k), d).db);
    } else {
      if Run(Down(k), d).Done? {
        assert DownTo(m, m, Run(Down(k), d).db) == Done(Run(Down(k), d).db);
      }
    }
  }

  /** Wherever the walk between `k` and `m` alters a type, it is declared as it is. */
  predicate DeclaredBetween(k: int, m: int, d: Db)
  {
    forall j :: k < j <= m ==> DeclaredWidth(j, d)
  }

  /** A width declared above revision `k` is the base's own. */
  lemma WidthFromBase(k: int, j: int, d: Db, base: Db, w: Widths)
    requires IsBase(base, w) && IsAt(k, d, base, w) && k < j <= HEAD
    ensures DeclaredWidth(j, d) <==> DeclaredWidth(j, base)
  {
    hide IsBase, SchemaAt, DeclaredWidth, Redeclared, HasAltered, Schema, Valid;
    SchemaOfRedeclared(j, k, base, w);
    DeclaredOnSchema(j, d);
  }

  lemma {:induction false} BackWhereDeclared(k: int, m: int, d: Db, base: Db, w: Widths)
    requires IsBase(base, w) && IsAt(k, d, base, w) && k <= m <= HEAD && UpTo(k, m, w, d).Done?
    requires DeclaredBetween(k, m, d)
    ensures DownTo(m, k, UpTo(k, m, w, d).db) == Done(d)
    decreases m - k
  {
    hide IsBase, IsAt, Run, Up, Down, DeclaredWidth;
    if k < m {
      AtRange(k, d, base, w);
      UpLands(k, d, base, w);
      var next := Run(Up(k + 1, w), d).db;
      forall j | k + 1 < j <= m
        ensures DeclaredWidth(j, next)
      {
        WidthFromBase(k, j, d, base, w);
        WidthFromBase(k + 1, j, next, base, w);
      }
      BackWhereDeclared(k + 1, m, next, base, w);
      DownToAppend(m, k, UpTo(k + 1, m, w, next).db);
      WidthRestoredExactly(k, d, base, w);
    }
  }

  /**
   Any number of upgrades followed by as many downgrades gives back the exact database if and only if
   every altered column on the way had the declared width.
   */
  lemma ThereAndBack(k: int, m: int, d: Db, base: Db, w: Widths)
    requires IsBase(base, w) && IsAt(k, d, base, w) && k <= m <= HEAD && UpTo(k, m, w, d).Done?
    ensures DownTo(m, k, UpTo(k, m, w, d).db) == Done(d) <==> DeclaredBetween(k, m, d)
  {
    hide IsBase, IsAt, DownTo, DeclaredWidth, HasAltered, CutBack;
    AtRange(k, d, base, w);
    var top := UpTo(k, m, w, d).db;
    hide UpTo;
    if DeclaredBetween(k, m, d) {
      BackWhereDeclared(k, m, d, base, w);
    }
    if DownTo(m, k, top) == Done(d) {
      UpToLands(k, m, d, base, w);
      DownToLands(m, k, top, base, w);
      var b := CutBack(m, k, base);
      CutBackIsBase(m, k, base, w);
      BaseFacts(base, w);
      forall j | k < j <= m
        ensures DeclaredWidth(j, d)
      {
        CutBackDeclares(m, k, base, j);
        WidthFromBase(k, j, d, b, w);
      }
    }
  }

  /**
   Whatever the widths, there and back changes no row: what comes back has the same tables and columns
   and holds the same rows.
   */
  lemma ThereAndBackKeepsRows(k: int, m: int, d: Db, base: Db, w: Widths)
    requires IsBase(base, w) && IsAt(k, d, base, w) && k <= m <= HEAD && UpTo(k, m, w, d).Done?
    requires DownTo(m, k, UpTo(k, m, w, d).db).Done?
    ensures var back := DownTo(m, k, UpTo(k, m, w, d).db).db;
            && back.tables.Keys == d.tables.Keys
            && forall t :: t in d.tables ==>
                 back.tables[t].columns.Keys == d.tables[t].columns.Keys && back.tables[t].rows == d.tables[t].rows
  {
    AtRange(k, d, base, w);
    UpToLands(k, m, d, base, w);
    var top := UpTo(k, m, w, d).db;
    DownToLands(m, k, top, base, w);
    var back := DownTo(m, k, top).db;
    SameShapes(m, k, base, w);
    hide IsBase, UpTo, DownTo, CutBack, Extends, Valid, SchemaAt, Schema;
    ShapeOfSchema(back);
    ShapeOfSchema(d);
    forall t | t in d.tables
      ensures back.tables[t].rows == d.tables[t].rows
    {
      SameRows(back, d, top, t);
    }
  }

  lemma ShapeOfSchema(d: Db)
    ensures SameShape(Schema(d), d)
  {
  }

  /** The same tables with the same columns, whatever their types. */
  predicate SameShape(a: Db, b: Db)
  {
    && a.tables.Keys == b.tables.Keys
    && forall t :: t in a.tables ==> a.tables[t].columns.Keys == b.tables[t].columns.Keys
  }

  lemma SameRows(a: Db, b: Db, top: Db, t: string)
    requires Valid(a) && Valid(b) && Extends(a, top) && Extends(b, top)
    requires t in a.tables && t in b.tables && a.tables[t].columns.Keys == b.tables[t].columns.Keys
    ensures a.tables[t].rows == b.tables[t].rows
  {
    assert TableValid(a.tables, a.tables[t]) && TableValid(b.tables, b.tables[t]);
    assert Includes(a.tables[t], top.tables[t]) && Includes(b.tables[t], top.tables[t]);
    hide Holds, WellFormed, Conforms, Valid, TableValid;
    forall i | 0 <= i < |a.tables[t].rows|
      ensures a.tables[t].rows[i] == b.tables[t].rows[i]
    {
      var r, q := a.tables[t].rows[i], b.tables[t].rows[i];
      assert RowFits(r, a.tables[t].columns) && RowFits(q, b.tables[t].columns);
      forall c | c in r
        ensures r[c] == q[c]
      {
        assert Val(r, c) == Val(top.tables[t].rows[i], c) == Val(q, c);
      }
    }
  }

  lemma RedeclaredShape(k: int, d: Db)
    ensures SameShape(Redeclared(k, d), d)
  {
    hide REFERENCES, ROLE, EXPORT, EXPORT_TYPE;
  }

  /** Cutting widths back changes no shape, at any revision below. */
  lemma {:induction false} SameShapes(k: int, m: int, base: Db, w: Widths)
    requires IsBase(base, w) && FIRST <= m <= k <= HEAD
    ensures SchemaAt(m, CutBack(k, m, base), w).Done? && SchemaAt(m, base, w).Done?
    ensures SameShape(SchemaAt(m, CutBack(k, m, base), w).db, SchemaAt(m, base, w).db)
    decreases k - m
  {
    hide IsBase, SchemaAt, Redeclared, HasAltered;
    ReachedSchema(m, base, w);
    if k > m {
      RedeclaredIsBase(k, base, w);
      SchemaOfRedeclared(k, m, base, w);
      SameShapes(k - 1, m, Redeclared(k, base), w);
      RedeclaredShape(k, SchemaAt(m, base, w).db);
    }
  }

  // ---- transactional runs and walks

  datatype Command = Upgrade(to: int) | Downgrade(to: int)

  /** What a command would do if it ran to its end; a target on the wrong side is nothing to do. */
  function Attempt(cmd: Command, k: int, w: Widths, d: Db): Outcome
  {
    match cmd
    case Upgrade(to) => UpTo(k, to, w, d)
    case Downgrade(to) => DownTo(k, to, d)
  }

  function Target(cmd: Command, k: int): int
  {
    match cmd
    case Upgrade(to) => if to > k then to else k
    case Downgrade(to) => if to < k then to else k
  }

  datatype Position = Position(revision: int, db: Db)

  /** One run inside one transaction: all of it, or nothing. */
  function Execute(cmd: Command, w: Widths, p: Position): Position
  {
    if Attempt(cmd, p.revision, w, p.db).Done?
    then Position(Target(cmd, p.revision), Attempt(cmd, p.revision, w, p.db).db) else p
  }

  function Walk(cmds: seq<Command>, w: Widths, p: Position): Position
  {
    if cmds == [] then p else Walk(cmds[1..], w, Execute(cmds[0], w, p))
  }

  lemma {:induction false} UpToValid(k: int, m: int, w: Widths, d: Db)
    requires Valid(d) && UpTo(k, m, w, d).Done?
    ensures Valid(UpTo(k, m, w, d).db)
    decreases m - k
  {
    hide Valid, Run, Up;
    if k < m {
      RunValid(Up(k + 1, w), d);
      UpToValid(k + 1, m, w, Run(Up(k + 1, w), d).db);
    }
  }

  lemma {:induction false} DownToValid(k: int, m: int, d: Db)
    requires Valid(d) && DownTo(k, m, d).Done?
    ensures Valid(DownTo(k, m, d).db)
    decreases k - m
  {
    hide Valid, Run, Down;
    if k > m {
      RunValid(Down(k), d);
      DownToValid(k - 1, m, Run(Down(k), d).db);
    }
  }

  /** From any consistent database at all, whatever its schema, every walk keeps it consistent. */
  lemma {:induction false} WalkKeepsConstraints(cmds: seq<Command>, w: Widths, p: Position)
    requires Valid(p.db)
    ensures Valid(Walk(cmds, w, p).db)
  {
    hide Valid, UpTo, DownTo;
    if cmds != [] {
      if Attempt(cmds[0], p.revision, w, p.db).Done? {
        if cmds[0].Upgrade? {
          UpToValid(p.revision, cmds[0].to, w, p.db);
        } else {
          DownToValid(p.revision, cmds[0].to, p.db);
        }
      }
      WalkKeepsConstraints(cmds[1..], w, Execute(cmds[0], w, p));
    }
  }

  /** The bases a walk can get to: each of the two widths as it was, or as declared. */
  function Variants(base: Db): set<Db>
  {
    {base, Redeclared(33, base), Redeclared(40, base), Redeclared(33, Redeclared(40, base))}
  }

  lemma VariantsClosed(k: int, base: Db, b: Db)
    requires HasAltered(base) && b in Variants(base)
    ensures Redeclared(k, b) in Variants(base) && HasAltered(b)
  {
    AlteredApart();
    hide REFERENCES, ROLE, EXPORT, EXPORT_TYPE, Retype;
    var e := Redeclared(40, base);
    RedeclaredWidths(40, 40, base);
    RedeclaredWidths(33, 40, base);
    RedeclaredWidths(33, 33, base);
    RetypeAbsorbed(base, REFERENCES, ROLE, Varchar(18), Varchar(18), Varchar(18));
    RetypeAbsorbed(base, EXPORT, EXPORT_TYPE, Varchar(13), Varchar(13), Varchar(13));
    RetypeAbsorbed(e, REFERENCES, ROLE, Varchar(18), Varchar(18), Varchar(18));
    RedeclaredSwap(base);
    RedeclaredWidths(33, 40, e);
    RedeclaredSameExactly(40, Redeclared(33, e));
  }

  lemma RedeclaredSwap(d: Db)
    requires HasAltered(d)
    ensures Redeclared(40, Redeclared(33, d)) == Redeclared(33, Redeclared(40, d))
  {
    AlteredApart();
    RedeclaredWidths(33, 33, d);
    RedeclaredWidths(40, 40, d);
    hide REFERENCES, ROLE, EXPORT, EXPORT_TYPE;
    RetypeCommutes(AlterType(EXPORT, EXPORT_TYPE, Varchar(13), Varchar(13)), d, REFERENCES, ROLE, Varchar(18));
  }

  lemma {:induction false} CutBackIsVariant(k: int, m: int, base: Db, b: Db)
    requires HasAltered(base) && b in Variants(base)
    ensures CutBack(k, m, b) in Variants(base)
    decreases k - m
  {
    hide Variants, HasAltered, Redeclared;
    if k > m {
      VariantsClosed(k, base, b);
      CutBackIsVariant(k - 1, m, base, Redeclared(k, b));
    }
  }

  lemma VariantIsBase(base: Db, b: Db, w: Widths)
    requires IsBase(base, w) && b in Variants(base)
    ensures IsBase(b, w)
  {
    hide IsBase, Redeclared;
    RedeclaredIsBase(33, base, w);
    RedeclaredIsBase(40, base, w);
    RedeclaredIsBase(33, Redeclared(40, base), w);
  }

  /** Every table and column that the base has is in both, with the same values in the same order. */
  predicate SameWithin(base: Db, d: Db, e: Db)
  {
    forall t :: t in base.tables ==>
      && t in d.tables && t in e.tables
      && |d.tables[t].rows| == |e.tables[t].rows|
      && forall i, c :: 0 <= i < |d.tables[t].rows| && c in base.tables[t].columns ==>
           Val(d.tables[t].rows[i], c) == Val(e.tables[t].rows[i], c)
  }

  lemma ExtendedWithin(base: Db, d: Db, e: Db)
    requires Extends(d, e) || Extends(e, d)
    requires Contains(base, d) && Contains(base, e)
    ensures SameWithin(base, d, e)
  {
    forall t | t in base.tables
      ensures (Extends(d, e) ==> Includes(d.tables[t], e.tables[t])) && (Extends(e, d) ==> Includes(e.tables[t], d.tables[t]))
    {
    }
    if Extends(d, e) {
      assert forall t :: t in base.tables ==> Includes(d.tables[t], e.tables[t]);
    } else {
      assert forall t :: t in base.tables ==> Includes(e.tables[t], d.tables[t]);
    }
  }

  predicate Contains(base: Db, d: Db)
  {
    forall t :: t in base.tables ==> t in d.tables && base.tables[t].columns.Keys <= d.tables[t].columns.Keys
  }

  /** Every revision still has the tables and columns of 0032. */
  lemma ContainsBase(k: int, d: Db, base: Db, b: Db, w: Widths)
    requires IsBase(base, w) && b in Variants(base) && IsAt(k, d, b, w)
    ensures Contains(base, d)
  {
    AtRange(k, d, b, w);
    hide IsBase, Valid, SchemaAt, Variants, Contains, SameShape;
    SchemaContains(k, b, w);
    ShapeOfSchema(d);
    VariantShape(base, b);
    ContainsShapes(base, b, Schema(d), d);
  }

  lemma VariantShape(base: Db, b: Db)
    requires b in Variants(base)
    ensures SameShape(b, base)
  {
    hide Redeclared;
    RedeclaredShape(33, base);
    RedeclaredShape(40, base);
    RedeclaredShape(33, Redeclared(40, base));
  }

  lemma ContainsShapes(a: Db, b: Db, c: Db, d: Db)
    requires SameShape(b, a) && Contains(b, c) && SameShape(c, d)
    ensures Contains(a, d)
  {
    forall t | t in a.tables
      ensures t in d.tables && a.tables[t].columns.Keys <= d.tables[t].columns.Keys
    {
      assert t in b.tables;
    }
  }

  lemma {:induction false} SchemaContains(k: int, base: Db, w: Widths)
    requires FIRST <= k <= HEAD && SchemaAt(k, base, w).Done?
    ensures Contains(base, SchemaAt(k, base, w).db)
    decreases k
  {
    hide Run, Up, Down, Inverses, AllUp, AllDown, Contains, Extends;
    if k > FIRST {
      SchemaContains(k - 1, base, w);
      DownUndoesUp(k, w);
      var s := SchemaAt(k - 1, base, w).db;
      RunPreserves(Up(k, w), s);
      ContainsLarger(base, s, Run(Up(k, w), s).db);
    } else {
      ContainsItself(base);
    }
  }

  lemma ContainsItself(base: Db)
    ensures Contains(base, base)
  {
  }

  lemma ContainsLarger(base: Db, d: Db, after: Db)
    requires Contains(base, d) && Extends(d, after)
    ensures Contains(base, after)
  {
    forall t | t in base.tables
      ensures t in after.tables && base.tables[t].columns.Keys <= after.tables[t].columns.Keys
    {
      assert t in d.tables && Includes(d.tables[t], after.tables[t]);
    }
  }

  lemma ExecuteKeepsAt(cmd: Command, w: Widths, p: Position, base: Db, b: Db) returns (c: Db)
    requires IsBase(base, w) && b in Variants(base) && IsAt(p.revision, p.db, b, w) && FIRST <= cmd.to <= HEAD
    ensures var q := Execute(cmd, w, p);
            && c in Variants(base) && IsAt(q.revision, q.db, c, w)
            && (cmd.Upgrade? ==> c == b && Extends(p.db, q.db))
            && (cmd.Downgrade? ==> Extends(q.db, p.db))
  {
    hide IsBase, Extends, Variants, Redeclared, HasAltered;
    VariantIsBase(base, b, w);
    BaseFacts(base, w);
    ExtendsRefl(p.db);
    AtRange(p.revision, p.db, b, w);
    c := b;
    if Attempt(cmd, p.revision, w, p.db).Done? {
      if cmd.Upgrade? && cmd.to > p.revision {
        UpToLands(p.revision, cmd.to, p.db, b, w);
      } else if cmd.Downgrade? && cmd.to < p.revision {
        DownToLands(p.revision, cmd.to, p.db, b, w);
        CutBackIsVariant(p.revision, cmd.to, base, b);
        c := CutBack(p.revision, cmd.to, b);
      }
    }
    hide UpTo, DownTo, IsAt, CutBack;
  }

  lemma SameWithinTrans(base: Db, d: Db, e: Db, f: Db)
    requires SameWithin(base, d, e) && SameWithin(base, e, f)
    ensures SameWithin(base, d, f)
  {
    forall t | t in base.tables
      ensures forall i, c :: 0 <= i < |d.tables[t].rows| && c in base.tables[t].columns ==>
                Val(d.tables[t].rows[i], c) == Val(f.tables[t].rows[i], c)
    {
      forall i, c | 0 <= i < |d.tables[t].rows| && c in base.tables[t].columns
        ensures Val(d.tables[t].rows[i], c) == Val(f.tables[t].rows[i], c)
      {
        assert Val(d.tables[t].rows[i], c) == Val(e.tables[t].rows[i], c);
      }
    }
  }

  /**
   However a database is walked up and down, and whichever runs fail on the way, it is always at some
   revision: it has exactly the schema of that revision, up to the two widths, which are the base's or
   the declared ones; every constraint of it is satisfied; and every column of the base still holds the
   same values in the same rows.
   */
  lemma {:induction false} WalkStaysValid(cmds: seq<Command>, w: Widths, p: Position, base: Db, b: Db) returns (c: Db)
    requires IsBase(base, w) && b in Variants(base) && IsAt(p.revision, p.db, b, w)
    requires forall cmd :: cmd in cmds ==> FIRST <= cmd.to <= HEAD
    ensures c in Variants(base) && IsAt(Walk(cmds, w, p).revision, Walk(cmds, w, p).db, c, w)
    ensures SameWithin(base, p.db, Walk(cmds, w, p).db)
  {
    hide IsBase, IsAt, Execute, Variants, SameWithin, Extends, Contains;
    ContainsBase(p.revision, p.db, base, b, w);
    if cmds == [] {
      ExtendsRefl(p.db);
      ExtendedWithin(base, p.db, p.db);
      c := b;
    } else {
      var q := Execute(cmds[0], w, p);
      var next := ExecuteKeepsAt(cmds[0], w, p, base, b);
      ContainsBase(q.revision, q.db, base, next, w);
      ExtendedWithin(base, p.db, q.db);
      c := WalkStaysValid(cmds[1..], w, q, base, next);
      SameWithinTrans(base, p.db, q.db, Walk(cmds, w, p).db);
    }
  }

  /** The connection Alembic migrates over: the database and the recorded revision. */
  class Connection {
    var db: Db
    var version: int
    const widths: Widths

    constructor (db: Db, version: int, widths: Widths)
      ensures this.db == db && this.version == version && this.widths == widths
    {
      this.db, this.version, this.widths := db, version, widths;
    }

    /** One migration function: its statements, each changing the database before the next one runs. */
    method RunScript(ops: seq<Op>) returns (failure: Option<Failure>)
      modifies this`db
      ensures match failure
              case None => Run(ops, old(db)) == Done(db)
              case Some(why) => Run(ops, old(db)) == Failed(why)
    {
      for i := 0 to |ops|
        invariant Run(ops[i..], db) == Run(ops, old(db))
      {
        assert ops[i..][1..] == ops[i + 1..];
        var outcome := Apply(ops[i], db);
        match outcome {
          case Failed(why) => return Some(why);
          case Done(next) => db := next;
        }
      }
      failure := None;
    }

    /** `_do_run_migrations`: the whole run in one transaction, rolled back on the first failure. */
    method RunMigrations(cmd: Command) returns (failure: Option<Failure>)
      modifies this
      ensures Position(version, db) == Execute(cmd, widths, Position(old(version), old(db)))
      ensures match failure
              case None => Attempt(cmd, old(version), widths, old(db)) == Done(db)
              case Some(why) => Attempt(cmd, old(version), widths, old(db)) == Failed(why)
      ensures failure.Some? ==> db == old(db) && version == old(version)
    {
      var saved, savedVersion := db, version;
      var to := cmd.to;
      hide Run, Up, Down;
      if cmd.Upgrade? {
        while version < to
          invariant UpTo(version, to, widths, db) == UpTo(savedVersion, to, widths, saved)
          invariant version == savedVersion || savedVersion < version <= to
        {
          var failed := RunScript(Up(version + 1, widths));
          if failed.Some? {
            db, version := saved, savedVersion;
            return failed;
          }
          version := version + 1;
        }
      } else {
        while version > to
          invariant DownTo(version, to, db) == DownTo(savedVersion, to, saved)
          invariant version == savedVersion || to <= version < savedVersion
          decreases version - to
        {
          var failed := RunScript(Down(version));
          if failed.Some? {
            db, version := saved, savedVersion;
            return failed;
          }
          version := version - 1;
        }
      }
      failure := None;
    }
  }
}
