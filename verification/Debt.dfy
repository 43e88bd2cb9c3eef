/**
 The counting parts of `report`, `measured_counts` and `ledger`
 (docs/audit/acceptance_semantic_scan.py:755-810, 839-850, 956-969). They run after `validate`
 has accepted the map, so every criterion is a mapping.
 */
module Debt {
  import opened Text
  import opened Yaml
  import opened TestNodes
  import opened Vocabulary
  import opened Rules
  import opened Claims
  import opened Honesty
  import opened Counting

  predicate AllMaps(criteria: seq<Yaml>)
  {
    forall r :: r in criteria ==> r.Map?
  }

  /** Python truth of a value. */
  predicate Truthy(v: Yaml)
  {
    match v
    case Null => false
    case Bool(b) => b
    case Num(n) => n != 0
    case Str(s) => s != ""
    case List(items) => items != []
    case Map(fields) => fields != map[]
  }

  /** A criterion that carries the string `value` under `key`. */
  function Carries(key: string, value: string): Yaml -> bool
  {
    (r: Yaml) => r.Map? && key in r.fields && r.fields[key] == Str(value)
  }

  /** The counts are numbers of criteria. */
  lemma {:induction false} CountOfIsCardinality(criteria: seq<Yaml>, key: string, value: string)
    requires AllMaps(criteria)
    ensures CountOf(criteria, key, value) == |Positions(criteria, Carries(key, value))|
  {
    if criteria == [] {
      NoneInEmpty(Carries(key, value));
    } else {
      var init, last := criteria[..|criteria| - 1], criteria[|criteria| - 1];
      CountOfIsCardinality(init, key, value);
      PositionsSnoc(init, last, Carries(key, value));
      assert criteria == init + [last];
      hide Positions;
    }
  }

  /** How many criteria carry the string `value` under `key`. */
  function CountOf(criteria: seq<Yaml>, key: string, value: string): nat
    requires AllMaps(criteria)
  {
    if criteria == [] then 0
    else
      var last := criteria[|criteria| - 1];
      CountOf(criteria[..|criteria| - 1], key, value) + if Get(last.fields, key) == Str(value) then 1 else 0
  }

  /** The rows the ledger lists: those with a truthy debt class. */
  function OpenRows(criteria: seq<Yaml>): seq<Yaml>
    requires AllMaps(criteria)
  {
    if criteria == [] then []
    else
      var last := criteria[|criteria| - 1];
      OpenRows(criteria[..|criteria| - 1]) + if Truthy(Get(last.fields, "debt_class")) then [last] else []
  }

  /** The ledger lists exactly the criteria with a debt class, each once, in their order. */
  lemma {:induction false} OpenRowsExactly(criteria: seq<Yaml>)
    requires AllMaps(criteria)
    ensures forall r :: r in OpenRows(criteria) <==> r in criteria && Truthy(Get(r.fields, "debt_class"))
    ensures |OpenRows(criteria)| == |Positions(criteria, HAS_CLASS)|
  {
    if criteria == [] {
      NoneInEmpty(HAS_CLASS);
    } else {
      var init, last := criteria[..|criteria| - 1], criteria[|criteria| - 1];
      OpenRowsExactly(init);
      PositionsSnoc(init, last, HAS_CLASS);
      assert criteria == init + [last];
      hide Positions, Truthy, Get;
    }
  }

  const HAS_CLASS: Yaml -> bool := (r: Yaml) => r.Map? && Truthy(Get(r.fields, "debt_class"))

  /** `counter.get(key, 0)` */
  function At(counter: map<string, nat>, key: string): nat
  {
    if key in counter then counter[key] else 0
  }

  datatype Counts = Counts(total: nat, partial_: nat, uncovered: nat, byClass: map<string, nat>)

  /** Every counter is the number of criteria with that status or class. */
  predicate Measures(counts: Counts, criteria: seq<Yaml>)
    requires AllMaps(criteria)
  {
    && counts.total == |criteria|
    && counts.partial_ == CountOf(criteria, "status", "partial")
    && counts.uncovered == CountOf(criteria, "status", "uncovered")
    && counts.byClass.Keys == {"A", "B", "C", "D"}
    && forall c :: c in counts.byClass ==> counts.byClass[c] == CountOf(criteria, "debt_class", c)
  }

  /** `measured_counts`: one pass over the criteria with two counters. */
  method MeasuredCounts(criteria: seq<Yaml>) returns (counts: Counts)
    requires AllMaps(criteria)
    ensures Measures(counts, criteria)
  {
    var byStatus := CountStrings(criteria, "status");
    var byClass := CountStrings(criteria, "debt_class");
    counts := Counts(|criteria|, At(byStatus, "partial"), At(byStatus, "uncovered"),
                     map c | c in DEBT_CLASSES :: At(byClass, c));
  }

  /** A `Counter` over the string values of one key. */
  method CountStrings(criteria: seq<Yaml>, key: string) returns (counter: map<string, nat>)
    requires AllMaps(criteria)
    ensures forall s :: At(counter, s) == CountOf(criteria, key, s)
  {
    counter := map[];
    for i := 0 to |criteria|
      invariant forall s :: At(counter, s) == CountOf(criteria[..i], key, s)
    {
      assert criteria[..i + 1][..i] == criteria[..i];
      var v := Get(criteria[i].fields, key);
      ghost var before := counter;
      if v.Str? {
        counter := counter[v.s := At(counter, v.s) + 1];
      }
      forall s
        ensures At(counter, s) == CountOf(criteria[..i + 1], key, s)
      {
        assert At(before, s) == CountOf(criteria[..i], key, s);
      }
    }
    assert criteria[..|criteria|] == criteria;
  }

  function ClassTotal(criteria: seq<Yaml>): nat
    requires AllMaps(criteria)
  {
    CountOf(criteria, "debt_class", "A") + CountOf(criteria, "debt_class", "B")
    + CountOf(criteria, "debt_class", "C") + CountOf(criteria, "debt_class", "D")
  }

  /** What an honest header says about debt: open exactly when classified, and then truthy. */
  predicate DebtClassified(record: Record)
  {
    var status, debt := Get(record, "status"), Get(record, "debt_class");
    if status == Str("partial") || status == Str("uncovered") then IsDebtClass(debt) else debt.Null?
  }

  lemma ClassifiedCountsOnce(debt: Yaml)
    requires IsDebtClass(debt)
    ensures Truthy(debt)
    ensures (debt == Str("A") || debt == Str("B")) || (debt == Str("C") || debt == Str("D"))
  {
  }

  lemma {:induction false} DebtConservedFor(criteria: seq<Yaml>)
    requires AllMaps(criteria) && forall r :: r in criteria ==> DebtClassified(r.fields)
    ensures CountOf(criteria, "status", "partial") + CountOf(criteria, "status", "uncovered") == ClassTotal(criteria)
    ensures ClassTotal(criteria) == |OpenRows(criteria)|
  {
    if criteria != [] {
      var last := criteria[|criteria| - 1];
      DebtConservedFor(criteria[..|criteria| - 1]);
      assert DebtClassified(last.fields);
      var debt := Get(last.fields, "debt_class");
      if !debt.Null? {
        ClassifiedCountsOnce(debt);
      }
      hide Get;
    }
  }

  lemma HonestIsClassified(tree: FileTree, record: Record)
    requires HonestHeader(tree, record)
    ensures DebtClassified(record)
  {
  }

  /**
   In an accepted map no debt is lost or counted twice: partial plus uncovered criteria equal the
   A+B+C+D total of the report and of the baseline, and the number of rows of the ledger.
   */
  lemma DebtConserved(tree: FileTree, document: Yaml)
    requires Accepted(tree, document)
    ensures AllMaps(Criteria(document))
    ensures var criteria := Criteria(document);
            && CountOf(criteria, "status", "partial") + CountOf(criteria, "status", "uncovered") == ClassTotal(criteria)
            && ClassTotal(criteria) == |OpenRows(criteria)|
  {
    AcceptedExactly(tree, document);
    hide HonestProof, HonestClauses, HonestHeader, VerdictOn, DistinctNames;
    forall r | r in Criteria(document)
      ensures r.Map? && DebtClassified(r.fields)
    {
      HonestIsClassified(tree, r.fields);
    }
    DebtConservedFor(Criteria(document));
  }

  // ---- unfalsifiable clauses

  predicate Marked(clause: Yaml)
  {
    clause.Map? && Truthy(Get(clause.fields, "unfalsifiable"))
  }

  /** The marked clauses of one row, each with its row. */
  function MarkedIn(row: Yaml, clauses: seq<Yaml>): seq<(Yaml, Yaml)>
  {
    if clauses == [] then []
    else
      var last := clauses[|clauses| - 1];
      MarkedIn(row, clauses[..|clauses| - 1]) + if Marked(last) then [(row, last)] else []
  }

  function ClausesOf(row: Yaml): seq<Yaml>
  {
    if row.Map? && HasClauses(row.fields) then Get(row.fields, "clauses").items else []
  }

  /** The ledger's list of unfalsifiable clauses, were it made from these rows. */
  function Unfalsifiable(rows: seq<Yaml>): seq<(Yaml, Yaml)>
  {
    if rows == [] then []
    else
      var last := rows[|rows| - 1];
      Unfalsifiable(rows[..|rows| - 1]) + MarkedIn(last, ClausesOf(last))
  }

  /** `ledger`: the marked clauses of the open rows, collected in order. */
  method LedgerUnfalsifiable(criteria: seq<Yaml>) returns (pairs: seq<(Yaml, Yaml)>)
    requires AllMaps(criteria)
    ensures pairs == Unfalsifiable(OpenRows(criteria))
  {
    hide Unfalsifiable, OpenRows, SettledRows, MarkedIn, ClausesOf, Truthy, Get;
    pairs := [];
    NoRowsNoClauses();
    for i := 0 to |criteria|
      invariant pairs == Unfalsifiable(OpenRows(criteria[..i]))
    {
      assert criteria[..i + 1] == criteria[..i] + [criteria[i]];
      RowsSplit(criteria[..i], criteria[i]);
      if Truthy(Get(criteria[i].fields, "debt_class")) {
        var marked := MarkedClauses(criteria[i]);
        pairs := pairs + marked;
        RowsAppend(OpenRows(criteria[..i]), criteria[i]);
      }
    }
    assert criteria[..|criteria|] == criteria;
  }

  method MarkedClauses(row: Yaml) returns (pairs: seq<(Yaml, Yaml)>)
    ensures pairs == MarkedIn(row, ClausesOf(row))
  {
    pairs := [];
    var clauses := ClausesOf(row);
    for c := 0 to |clauses|
      invariant pairs == MarkedIn(row, clauses[..c])
    {
      assert clauses[..c + 1][..c] == clauses[..c];
      if Marked(clauses[c]) {
        pairs := pairs + [(row, clauses[c])];
      }
    }
    assert clauses[..|clauses|] == clauses;
  }

  lemma RowsAppend(rows: seq<Yaml>, row: Yaml)
    ensures Unfalsifiable(rows + [row]) == Unfalsifiable(rows) + MarkedIn(row, ClausesOf(row))
  {
    assert (rows + [row])[..|rows|] == rows;
  }

  /** The rows the ledger does not list. */
  function SettledRows(criteria: seq<Yaml>): seq<Yaml>
    requires AllMaps(criteria)
  {
    if criteria == [] then []
    else
      var last := criteria[|criteria| - 1];
      SettledRows(criteria[..|criteria| - 1]) + if Truthy(Get(last.fields, "debt_class")) then [] else [last]
  }

  lemma NoRowsNoClauses()
    ensures OpenRows([]) == [] && SettledRows([]) == [] && Unfalsifiable([]) == []
  {
  }

  lemma RowsSplit(rows: seq<Yaml>, row: Yaml)
    requires AllMaps(rows) && row.Map?
    ensures AllMaps(rows + [row])
    ensures var open := Truthy(Get(row.fields, "debt_class"));
            && OpenRows(rows + [row]) == (if open then OpenRows(rows) + [row] else OpenRows(rows))
            && SettledRows(rows + [row]) == if open then SettledRows(rows) else SettledRows(rows) + [row]
  {
    assert (rows + [row])[..|rows|] == rows;
    hide Truthy, Get;
  }

  lemma {:induction false} LedgerMisses(criteria: seq<Yaml>)
    requires AllMaps(criteria)
    ensures |Unfalsifiable(criteria)| == |Unfalsifiable(OpenRows(criteria))| + |Unfalsifiable(SettledRows(criteria))|
  {
    hide Unfalsifiable, OpenRows, SettledRows, MarkedIn, ClausesOf, Truthy, Get;
    if criteria == [] {
      NoRowsNoClauses();
    } else {
      var init, last := criteria[..|criteria| - 1], criteria[|criteria| - 1];
      LedgerMisses(init);
      assert criteria == init + [last];
      RowsSplit(init, last);
      RowsAppend(init, last);
      RowsAppend(OpenRows(init), last);
      RowsAppend(SettledRows(init), last);
    }
  }

  /** The list has one pair for each marked clause of the row, the row with the clause, and no other. */
  lemma {:induction false} MarkedInExactly(row: Yaml, clauses: seq<Yaml>)
    ensures |MarkedIn(row, clauses)| == |Positions(clauses, IS_MARKED)|
    ensures forall p :: p in MarkedIn(row, clauses) <==> p.0 == row && p.1 in clauses && IS_MARKED(p.1)
  {
    if clauses == [] {
      NoneInEmpty(IS_MARKED);
    } else {
      var init, last := clauses[..|clauses| - 1], clauses[|clauses| - 1];
      MarkedInExactly(row, init);
      PositionsSnoc(init, last, IS_MARKED);
      assert clauses == init + [last];
      hide IS_MARKED, Positions;
      MarkedIsTruthy(last);
    }
  }

  /** A clause whose `unfalsifiable` is truthy: true, a number other than zero, or anything not empty. */
  const IS_MARKED: Yaml -> bool := (c: Yaml) =>
    c.Map? && "unfalsifiable" in c.fields
    && (match c.fields["unfalsifiable"]
        case Null => false
        case Bool(b) => b
        case Num(n) => n != 0
        case Str(s) => s != ""
        case List(items) => |items| > 0
        case Map(fields) => fields != map[])

  lemma MarkedIsTruthy(c: Yaml)
    ensures IS_MARKED(c) <==> Marked(c)
  {
  }

  lemma {:induction false} NoneMarked(row: Yaml, clauses: seq<Yaml>)
    ensures MarkedIn(row, clauses) == [] <==> forall c :: c in clauses ==> !Marked(c)
  {
    if clauses != [] {
      var init, last := clauses[..|clauses| - 1], clauses[|clauses| - 1];
      NoneMarked(row, init);
      assert clauses == init + [last];
    }
  }

  lemma {:induction false} NothingUnfalsifiable(rows: seq<Yaml>)
    ensures Unfalsifiable(rows) == [] <==> forall r, c :: r in rows && c in ClausesOf(r) ==> !Marked(c)
  {
    if rows != [] {
      var init, last := rows[..|rows| - 1], rows[|rows| - 1];
      NothingUnfalsifiable(init);
      NoneMarked(last, ClausesOf(last));
      hide ClausesOf, Marked, MarkedIn;
      assert rows == init + [last];
    }
  }

  lemma {:induction false} SettledAre(criteria: seq<Yaml>)
    requires AllMaps(criteria)
    ensures forall r :: r in SettledRows(criteria) <==> r in criteria && !Truthy(Get(r.fields, "debt_class"))
  {
    if criteria != [] {
      var init, last := criteria[..|criteria| - 1], criteria[|criteria| - 1];
      SettledAre(init);
      hide Get, Truthy;
      assert criteria == init + [last];
    }
  }

  /** Settled without a test: the statuses under which a marked clause is accepted and drops out of sight. */
  predicate Dismissed(status: Yaml)
  {
    status == Str("deliberate_future_dev") || status == Str("not_applicable") || status == Str("product_decision_required")
  }

  /** In an honest row: what a marker tells of the statuses, and which rows the ledger lists. */
  lemma MarkedClause(tree: FileTree, row: Yaml, clause: Yaml)
    requires HonestRecord(tree, row) && clause in ClausesOf(row) && Marked(clause)
    ensures Get(clause.fields, "status") == Str("uncovered") && Get(row.fields, "status") != Str("covered")
  {
    HeaderStatus(tree, row.fields);
    hide HonestHeader, HonestProof, Blank, HasText;
    assert HonestClause(tree, Evidence(row.fields), clause);
  }

  lemma SettledStatus(tree: FileTree, row: Yaml)
    requires HonestRecord(tree, row)
    ensures !Truthy(Get(row.fields, "debt_class")) <==>
            Get(row.fields, "status") == Str("covered") || Dismissed(Get(row.fields, "status"))
  {
    hide HonestProof, HonestClauses, Blank;
    var debt := Get(row.fields, "debt_class");
    if IsDebtClass(debt) {
      ClassifiedCountsOnce(debt);
    }
  }

  /**
   Exactly when the promise holds that the marker hides nothing: in an accepted map the ledger lists
   every clause marked unfalsifiable if and only if none belongs to a criterion that is settled without
   a test; each that does is missing from it.
   */
  lemma UnfalsifiableCountedExactly(tree: FileTree, document: Yaml)
    requires Accepted(tree, document)
    ensures AllMaps(Criteria(document))
    ensures var criteria := Criteria(document);
            |Unfalsifiable(OpenRows(criteria))| == |Unfalsifiable(criteria)| <==>
            forall r, c :: r in criteria && c in ClausesOf(r) && Marked(c) ==> !Dismissed(Get(r.fields, "status"))
  {
    AcceptedExactly(tree, document);
    hide HonestRecord, VerdictOn, DistinctNames, ClausesOf, Marked, Dismissed, Truthy, Get;
    var criteria := Criteria(document);
    forall r | r in criteria
      ensures r.Map? && (!Truthy(Get(r.fields, "debt_class")) <==>
                           Get(r.fields, "status") == Str("covered") || Dismissed(Get(r.fields, "status")))
    {
      HonestIsMap(tree, r);
      SettledStatus(tree, r);
    }
    forall r, c | r in criteria && c in ClausesOf(r) && Marked(c)
      ensures Get(r.fields, "status") != Str("covered")
    {
      MarkedClause(tree, r, c);
    }
    LedgerMisses(criteria);
    SettledAre(criteria);
    NothingUnfalsifiable(SettledRows(criteria));
  }

  // ---- the per-document status matrix

  /** How many criteria fall in one cell of the coverage table. */
  function Cell(criteria: seq<Yaml>, docKey: Yaml -> string, doc: string, status: string): nat
    requires AllMaps(criteria)
  {
    if criteria == [] then 0
    else
      var last := criteria[|criteria| - 1];
      Cell(criteria[..|criteria| - 1], docKey, doc, status)
      + if docKey(Get(last.fields, "document")) == doc && Get(last.fields, "status") == Str(status) then 1 else 0
  }

  function InCell(docKey: Yaml -> string, doc: string, status: string): Yaml -> bool
  {
    (r: Yaml) => r.Map? && docKey(Get(r.fields, "document")) == doc && Get(r.fields, "status") == Str(status)
  }

  lemma {:induction false} CellIsCardinality(criteria: seq<Yaml>, docKey: Yaml -> string, doc: string, status: string)
    requires AllMaps(criteria)
    ensures Cell(criteria, docKey, doc, status) == |Positions(criteria, InCell(docKey, doc, status))|
  {
    if criteria == [] {
      NoneInEmpty(InCell(docKey, doc, status));
    } else {
      var init, last := criteria[..|criteria| - 1], criteria[|criteria| - 1];
      CellIsCardinality(init, docKey, doc, status);
      PositionsSnoc(init, last, InCell(docKey, doc, status));
      assert criteria == init + [last];
      hide Positions, Get;
    }
  }

  /** The cells of one row, summed over the given statuses. */
  function RowSum(criteria: seq<Yaml>, docKey: Yaml -> string, doc: string, statuses: seq<string>): nat
    requires AllMaps(criteria)
  {
    if statuses == [] then 0
    else Cell(criteria, docKey, doc, statuses[0]) + RowSum(criteria, docKey, doc, statuses[1..])
  }

  /** The cells of one column, summed over the given documents. */
  function ColumnSum(criteria: seq<Yaml>, docKey: Yaml -> string, docs: seq<string>, status: string): nat
    requires AllMaps(criteria)
  {
    if docs == [] then 0
    else Cell(criteria, docKey, docs[0], status) + ColumnSum(criteria, docKey, docs[1..], status)
  }

  function DocCount(criteria: seq<Yaml>, docKey: Yaml -> string, doc: string): nat
    requires AllMaps(criteria)
  {
    if criteria == [] then 0
    else
      var last := criteria[|criteria| - 1];
      DocCount(criteria[..|criteria| - 1], docKey, doc) + if docKey(Get(last.fields, "document")) == doc then 1 else 0
  }

  predicate NoDuplicates(xs: seq<string>)
  {
    forall i, j :: 0 <= i < j < |xs| ==> xs[i] != xs[j]
  }

  /** The document and the status of the last criterion. */
  function DocOf(criteria: seq<Yaml>, docKey: Yaml -> string): string
    requires criteria != [] && AllMaps(criteria)
  {
    docKey(Get(criteria[|criteria| - 1].fields, "document"))
  }

  function StatusAt(criteria: seq<Yaml>): Yaml
    requires criteria != [] && AllMaps(criteria)
  {
    Get(criteria[|criteria| - 1].fields, "status")
  }

  lemma {:induction false} RowSumNext(criteria: seq<Yaml>, docKey: Yaml -> string, doc: string, statuses: seq<string>)
    requires criteria != [] && AllMaps(criteria) && NoDuplicates(statuses)
    ensures RowSum(criteria, docKey, doc, statuses)
         == RowSum(criteria[..|criteria| - 1], docKey, doc, statuses)
            + if DocOf(criteria, docKey) == doc && IsOneOf(StatusAt(criteria), statuses) then 1 else 0
  {
    hide Get;
    if statuses != [] {
      RowSumNext(criteria, docKey, doc, statuses[1..]);
    }
  }

  lemma {:induction false} ColumnSumNext(criteria: seq<Yaml>, docKey: Yaml -> string, docs: seq<string>, status: string)
    requires criteria != [] && AllMaps(criteria) && NoDuplicates(docs)
    ensures ColumnSum(criteria, docKey, docs, status)
         == ColumnSum(criteria[..|criteria| - 1], docKey, docs, status)
            + if DocOf(criteria, docKey) in docs && StatusAt(criteria) == Str(status) then 1 else 0
  {
    hide Get;
    if docs != [] {
      ColumnSumNext(criteria, docKey, docs[1..], status);
    }
  }

  lemma {:induction false} EmptySums(docKey: Yaml -> string, name: string, names: seq<string>)
    ensures RowSum([], docKey, name, names) == 0 && ColumnSum([], docKey, names, name) == 0
  {
    if names != [] {
      EmptySums(docKey, name, names[1..]);
    }
  }

  /**
   The coverage table adds up: each document's row sums to its number of criteria, each status
   column over the listed documents to the overall count of that status.
   */
  lemma {:induction false} MatrixAddsUp(criteria: seq<Yaml>, docKey: Yaml -> string, docs: seq<string>,
                                        statuses: seq<string>, doc: string, status: string)
    requires AllMaps(criteria) && NoDuplicates(docs) && NoDuplicates(statuses)
    requires forall r :: r in criteria ==> IsOneOf(Get(r.fields, "status"), statuses)
    requires forall r :: r in criteria ==> docKey(Get(r.fields, "document")) in docs
    ensures RowSum(criteria, docKey, doc, statuses) == DocCount(criteria, docKey, doc)
    ensures ColumnSum(criteria, docKey, docs, status) == CountOf(criteria, "status", status)
  {
    hide Get, IsOneOf;
    if criteria == [] {
      EmptySums(docKey, doc, statuses);
      EmptySums(docKey, status, docs);
    } else {
      MatrixAddsUp(criteria[..|criteria| - 1], docKey, docs, statuses, doc, status);
      RowSumNext(criteria, docKey, doc, statuses);
      ColumnSumNext(criteria, docKey, docs, status);
      assert criteria[|criteria| - 1] in criteria;
    }
  }

  lemma {:induction false} StatusesTotal(criteria: seq<Yaml>)
    requires AllMaps(criteria) && forall r :: r in criteria ==> IsStatus(Get(r.fields, "status"))
    ensures CountOf(criteria, "status", "covered") + CountOf(criteria, "status", "partial")
            + CountOf(criteria, "status", "uncovered") + CountOf(criteria, "status", "deliberate_future_dev")
            + CountOf(criteria, "status", "not_applicable") + CountOf(criteria, "status", "product_decision_required")
         == |criteria|
  {
    if criteria != [] {
      StatusesTotal(criteria[..|criteria| - 1]);
      assert IsStatus(Get(criteria[|criteria| - 1].fields, "status"));
      hide Get;
    }
  }

  /** `by_doc[doc].get(status, 0)` of the nested counter. */
  function Entry(byDoc: map<string, map<string, nat>>, doc: string, status: string): nat
  {
    if doc in byDoc then At(byDoc[doc], status) else 0
  }

  /** `report`: the nested counter `by_doc`, filled in one pass. */
  method StatusMatrix(criteria: seq<Yaml>, docKey: Yaml -> string) returns (byDoc: map<string, map<string, nat>>)
    requires AllMaps(criteria) && forall r :: r in criteria ==> Get(r.fields, "status").Str?
    ensures forall r :: r in criteria ==> docKey(Get(r.fields, "document")) in byDoc
    ensures forall doc, s :: Entry(byDoc, doc, s) == Cell(criteria, docKey, doc, s)
  {
    byDoc := map[];
    for i := 0 to |criteria|
      invariant forall k :: 0 <= k < i ==> docKey(Get(criteria[k].fields, "document")) in byDoc
      invariant forall doc, s :: Entry(byDoc, doc, s) == Cell(criteria[..i], docKey, doc, s)
    {
      assert criteria[..i + 1][..i] == criteria[..i];
      var doc, s := docKey(Get(criteria[i].fields, "document")), Get(criteria[i].fields, "status").s;
      var row := if doc in byDoc then byDoc[doc] else map[];
      ghost var before := byDoc;
      byDoc := byDoc[doc := row[s := At(row, s) + 1]];
      forall d, t
        ensures Entry(byDoc, d, t) == Cell(criteria[..i + 1], docKey, d, t)
      {
        assert Entry(before, d, t) == Cell(criteria[..i], docKey, d, t);
      }
    }
    assert criteria[..|criteria|] == criteria;
  }
}

/**
 The ratchet over the frozen baseline (docs/audit/acceptance_semantic_scan.py:853-914).
 `int(...)` of the baseline's numbers is taken as given.
 */
module Ratchet {
  import opened Wrappers
  import opened Yaml
  import opened TestNodes
  import opened Vocabulary
  import opened Rules
  import opened Claims
  import opened Honesty
  import opened Debt

  datatype Ceilings = Ceilings(total: Option<int>, status: Option<map<string, int>>, debtClass: Option<map<string, int>>)

  datatype Baseline = Baseline(ceilings: Option<Ceilings>)

  datatype Failure =
    | NoCeilings
    | ShrunkCorpus(measured: nat, floor: int)
    | NoMapping(group: string)
    | OverCeiling(group: string, key: string, value: nat, ceiling: int)

  /** A returned verdict, or the KeyError of the closing summary line. */
  datatype Outcome = Fail(failures: seq<Failure>) | Pass(improvements: seq<(string, string)>) | KeyError

  function Ceiling(frozen: map<string, int>, key: string): int
  {
    if key in frozen then frozen[key] else 0
  }

  function Floor(c: Ceilings): int
  {
    match c.total case Some(n) => n case None => 0
  }

  const CLASSES: set<string> := {"A", "B", "C", "D"}

  const OPEN: set<string> := {"partial", "uncovered"}

  /** Nothing measured exceeds what is frozen, and the corpus did not shrink. */
  predicate Within(counts: Counts, baseline: Baseline)
  {
    && baseline.ceilings.Some?
    && var c := baseline.ceilings.value;
    && counts.total >= Floor(c)
    && c.status.Some? && c.debtClass.Some?
    && counts.partial_ <= Ceiling(c.status.value, "partial")
    && counts.uncovered <= Ceiling(c.status.value, "uncovered")
    && forall k :: k in CLASSES ==> At(counts.byClass, k) <= Ceiling(c.debtClass.value, k)
  }

  /** The summary line subscripts the frozen statuses, so both must be present to report success. */
  predicate Printable(baseline: Baseline)
    requires baseline.ceilings.Some? && baseline.ceilings.value.status.Some?
  {
    "partial" in baseline.ceilings.value.status.value && "uncovered" in baseline.ceilings.value.status.value
  }

  function Members(keys: seq<string>): set<string>
  {
    set k | k in keys
  }

  lemma FrozenWords()
    ensures Members(NEEDS_DEBT_CLASS) == OPEN && Members(DEBT_CLASSES) == CLASSES
    ensures forall k :: k in NEEDS_DEBT_CLASS <==> k in OPEN
    ensures forall k :: k in DEBT_CLASSES <==> k in CLASSES
  {
  }

  /** One `if value > ceiling` / `elif value < ceiling` loop over a group of counters. */
  method CompareGroup(group: string, keys: seq<string>, measured: map<string, nat>, frozen: Option<map<string, int>>)
    returns (failures: seq<Failure>, improvements: seq<(string, string)>)
    ensures failures == [] <==> frozen.Some? && forall k :: k in keys ==> At(measured, k) <= Ceiling(frozen.value, k)
    ensures forall p :: p in improvements <==>
              frozen.Some? && p.0 == group && p.1 in keys && At(measured, p.1) < Ceiling(frozen.value, p.1)
    ensures forall f :: f in failures <==> Exceeded(group, Members(keys), measured, frozen, f)
  {
    if frozen.None? {
      return [NoMapping(group)], [];
    }
    failures, improvements := [], [];
    for i := 0 to |keys|
      invariant failures == [] <==> forall k :: 0 <= k < i ==> At(measured, keys[k]) <= Ceiling(frozen.value, keys[k])
      invariant forall p :: p in improvements <==>
                  p.0 == group && p.1 in keys[..i] && At(measured, p.1) < Ceiling(frozen.value, p.1)
      invariant forall f :: f in failures <==> Exceeded(group, Members(keys[..i]), measured, frozen, f)
    {
      var value, ceiling := At(measured, keys[i]), Ceiling(frozen.value, keys[i]);
      assert keys[..i + 1] == keys[..i] + [keys[i]];
      if value > ceiling {
        failures := failures + [OverCeiling(group, keys[i], value, ceiling)];
      } else if value < ceiling {
        improvements := improvements + [(group, keys[i])];
      }
    }
    assert keys[..|keys|] == keys;
  }

  /** The failures one group can report: a missing mapping, or a key measured above its ceiling. */
  predicate Exceeded(group: string, keys: set<string>, measured: map<string, nat>, frozen: Option<map<string, int>>,
                     f: Failure)
  {
    match frozen
    case None => f == NoMapping(group)
    case Some(ceilings) =>
      && f.OverCeiling? && f.group == group && f.key in keys
      && f.value == At(measured, f.key) > f.ceiling == Ceiling(ceilings, f.key)
  }

  function StatusMap(counts: Counts): map<string, nat>
  {
    map["partial" := counts.partial_, "uncovered" := counts.uncovered]
  }

  /**
   `ratchet`: it fails exactly when something grew or the corpus shrank, names exactly what did, and
   raises where its success line cannot be built.
   */
  method Compare(counts: Counts, baseline: Baseline) returns (outcome: Outcome)
    ensures outcome.Fail? <==> !Within(counts, baseline)
    ensures outcome.Fail? && baseline.ceilings.Some? ==>
              var c := baseline.ceilings.value;
              forall f :: f in outcome.failures <==>
                || (counts.total < Floor(c) && f == ShrunkCorpus(counts.total, Floor(c)))
                || Exceeded("status", OPEN, StatusMap(counts), c.status, f)
                || Exceeded("debt_class", CLASSES, counts.byClass, c.debtClass, f)
    ensures outcome.KeyError? <==> Within(counts, baseline) && !Printable(baseline)
    ensures outcome.Pass? ==>
              var c := baseline.ceilings.value;
              forall g, k :: (g, k) in outcome.improvements <==>
                || (g == "status" && k in OPEN && At(StatusMap(counts), k) < Ceiling(c.status.value, k))
                || (g == "debt_class" && k in CLASSES && At(counts.byClass, k) < Ceiling(c.debtClass.value, k))
  {
    if baseline.ceilings.None? {
      return Fail([NoCeilings]);
    }
    var c := baseline.ceilings.value;
    var failures: seq<Failure> := [];
    if counts.total < Floor(c) {
      failures := [ShrunkCorpus(counts.total, Floor(c))];
    }
    var worse, better := CompareGroup("status", NEEDS_DEBT_CLASS, StatusMap(counts), c.status);
    var classWorse, classBetter := CompareGroup("debt_class", DEBT_CLASSES, counts.byClass, c.debtClass);
    FrozenWords();
    hide CLASSES, DEBT_CLASSES, NEEDS_DEBT_CLASS;
    failures := failures + worse + classWorse;
    if failures != [] {
      return Fail(failures);
    }
    if !("partial" in c.status.value && "uncovered" in c.status.value) {
      return KeyError;
    }
    outcome := Pass(better + classBetter);
  }

  // ---- histories

  /** A run the ratchet lets through. */
  predicate Passes(counts: Counts, baseline: Baseline)
  {
    Within(counts, baseline) && Printable(baseline)
  }

  /** The baseline written from a run's own counts. */
  function Freeze(counts: Counts): Baseline
  {
    Baseline(Some(Ceilings(Some(counts.total), Some(map["partial" := counts.partial_, "uncovered" := counts.uncovered]),
                           Some(map k | k in CLASSES :: At(counts.byClass, k)))))
  }

  /** Baselines in time order, each frozen from a run that passed the one before. */
  ghost predicate IsHistory(baselines: seq<Baseline>, runs: seq<Counts>)
  {
    && |baselines| == |runs| + 1
    && forall k :: 0 <= k < |runs| ==> Passes(runs[k], baselines[k]) && baselines[k + 1] == Freeze(runs[k])
  }

  /** Everything frozen in `later` is at least as strict as in `earlier`. */
  predicate AtLeastAsStrict(later: Baseline, earlier: Baseline)
  {
    && later.ceilings.Some? && earlier.ceilings.Some?
    && var l, e := later.ceilings.value, earlier.ceilings.value;
    && l.status.Some? && l.debtClass.Some? && e.status.Some? && e.debtClass.Some?
    && Floor(l) >= Floor(e)
    && (forall k :: k in OPEN ==> Ceiling(l.status.value, k) <= Ceiling(e.status.value, k))
    && (forall k :: k in CLASSES ==> Ceiling(l.debtClass.value, k) <= Ceiling(e.debtClass.value, k))
    && Printable(earlier)
  }

  /** A number frozen under a key; what is not frozen is frozen at zero. */
  predicate AtMostFrozen(value: nat, frozen: map<string, int>, key: string)
  {
    if key in frozen then value <= frozen[key] else value == 0
  }

  /** What passing means, number by number. */
  lemma PassesExactly(counts: Counts, baseline: Baseline)
    ensures Passes(counts, baseline) <==>
            && baseline.ceilings.Some? && baseline.ceilings.value.status.Some? && baseline.ceilings.value.debtClass.Some?
            && var frozen, classes := baseline.ceilings.value.status.value, baseline.ceilings.value.debtClass.value;
            && (baseline.ceilings.value.total.None? || counts.total >= baseline.ceilings.value.total.value)
            && "partial" in frozen && counts.partial_ <= frozen["partial"]
            && "uncovered" in frozen && counts.uncovered <= frozen["uncovered"]
            && AtMostFrozen(At(counts.byClass, "A"), classes, "A") && AtMostFrozen(At(counts.byClass, "B"), classes, "B")
            && AtMostFrozen(At(counts.byClass, "C"), classes, "C") && AtMostFrozen(At(counts.byClass, "D"), classes, "D")
  {
  }

  /** A document always passes its own freeze. */
  lemma OwnFreezePasses(counts: Counts)
    ensures Passes(counts, Freeze(counts))
  {
    hide CLASSES;
  }

  lemma FreezeTightens(counts: Counts, baseline: Baseline)
    requires Passes(counts, baseline)
    ensures AtLeastAsStrict(Freeze(counts), baseline)
  {
    hide CLASSES;
    var l, e := Freeze(counts).ceilings.value, baseline.ceilings.value;
    assert forall k :: k in OPEN ==> Ceiling(l.status.value, k) <= Ceiling(e.status.value, k);
    assert forall k :: k in CLASSES ==> Ceiling(l.debtClass.value, k) <= Ceiling(e.debtClass.value, k);
  }

  /**
   Along any history ceilings never rise and the corpus floor never falls, so whatever passes a
   later baseline would have passed every earlier one.
   */
  lemma {:induction false} HistoryOnlyTightens(baselines: seq<Baseline>, runs: seq<Counts>, i: nat, j: nat, counts: Counts)
    requires IsHistory(baselines, runs) && i < j < |baselines|
    ensures AtLeastAsStrict(baselines[j], baselines[i])
    ensures Passes(counts, baselines[j]) ==> Passes(counts, baselines[i])
    decreases j
  {
    FreezeTightens(runs[j - 1], baselines[j - 1]);
    hide CLASSES, Passes, Freeze;
    if i < j - 1 {
      HistoryOnlyTightens(baselines, runs, i, j - 1, counts);
    }
    StricterAccepts(counts, baselines[j], baselines[i]);
  }

  lemma StricterAccepts(counts: Counts, later: Baseline, earlier: Baseline)
    requires AtLeastAsStrict(later, earlier)
    ensures Passes(counts, later) ==> Passes(counts, earlier)
  {
    assert "partial" in OPEN && "uncovered" in OPEN;
    hide CLASSES;
  }

  /** The criteria that are not open: covered, or settled without a test. */
  function SettledCount(criteria: seq<Yaml>): nat
    requires AllMaps(criteria)
  {
    CountOf(criteria, "status", "covered") + CountOf(criteria, "status", "deliberate_future_dev")
    + CountOf(criteria, "status", "not_applicable") + CountOf(criteria, "status", "product_decision_required")
  }

  lemma AcceptedStatuses(tree: FileTree, document: Yaml)
    requires Accepted(tree, document)
    ensures HasCriteria(document) && AllMaps(Criteria(document))
    ensures forall r :: r in Criteria(document) ==> IsStatus(Get(r.fields, "status"))
  {
    AcceptedExactly(tree, document);
    hide VerdictOn, DistinctNames, HonestHeader, HonestProof, HonestClauses, IsStatus, Get;
    forall r | r in Criteria(document)
      ensures r.Map? && IsStatus(Get(r.fields, "status"))
    {
      HonestIsMap(tree, r);
      HeaderStatus(tree, r.fields);
    }
  }

  /**
   What a passing run proves about an accepted map: at least as many of its criteria are settled as the
   floor of any baseline of the history minus what both its open ceilings allow.
   */
  lemma SettledCriteria(baselines: seq<Baseline>, runs: seq<Counts>, i: nat, j: nat, tree: FileTree, document: Yaml,
                        counts: Counts)
    requires IsHistory(baselines, runs) && i <= j < |baselines| && Passes(counts, baselines[j])
    requires Accepted(tree, document) && AllMaps(Criteria(document)) && Measures(counts, Criteria(document))
    ensures baselines[i].ceilings.Some? && baselines[i].ceilings.value.status.Some?
    ensures var c := baselines[i].ceilings.value;
            SettledCount(Criteria(document))
            >= Floor(c) - Ceiling(c.status.value, "partial") - Ceiling(c.status.value, "uncovered")
  {
    hide Accepted, IsStatus, Criteria, CountOf, Ceiling, IsHistory, Floor;
    AcceptedStatuses(tree, document);
    StatusesTotal(Criteria(document));
    SettledWithin(baselines, runs, i, j, counts);
    MeasuredOpen(counts, Criteria(document));
  }

  lemma MeasuredOpen(counts: Counts, criteria: seq<Yaml>)
    requires AllMaps(criteria) && Measures(counts, criteria)
    ensures counts.total == |criteria| && counts.partial_ == CountOf(criteria, "status", "partial")
    ensures counts.uncovered == CountOf(criteria, "status", "uncovered")
  {
  }

  lemma SettledWithin(baselines: seq<Baseline>, runs: seq<Counts>, i: nat, j: nat, counts: Counts)
    requires IsHistory(baselines, runs) && i <= j < |baselines| && Passes(counts, baselines[j])
    ensures baselines[i].ceilings.Some? && baselines[i].ceilings.value.status.Some?
    ensures var c := baselines[i].ceilings.value;
            counts.total - counts.partial_ - counts.uncovered
            >= Floor(c) - Ceiling(c.status.value, "partial") - Ceiling(c.status.value, "uncovered")
  {
    if i < j {
      HistoryOnlyTightens(baselines, runs, i, j, counts);
    }
  }

  /** A baseline without the frozen key passes the comparison and then has no number to print. */
  lemma MissingKeyPassesThenRaises()
    ensures var counts := Counts(1, 0, 0, map[]);
            var baseline := Baseline(Some(Ceilings(Some(1), Some(map[]), Some(map[]))));
            Within(counts, baseline) && !Printable(baseline)
  {
    hide CLASSES;
  }
}
