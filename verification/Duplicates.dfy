/**
 The two duplicate codes of the validator, seen from the whole document: whatever else is wrong with
 it, each is reported exactly when two criteria, or two clauses anywhere in the map, share an id.
 */
module Duplicates {
  import opened Wrappers
  import opened Yaml
  import opened TestNodes
  import opened Vocabulary
  import opened Findings
  import opened Rules
  import opened Honesty

  predicate Has(vs: seq<Violation>, code: Code)
  {
    exists v :: v in vs && v.code == code
  }

  /** None of these violations is about a repeated id. */
  predicate Quiet(vs: seq<Violation>)
  {
    forall v :: v in vs ==> v.code != DuplicateId && v.code != DuplicateClauseId
  }

  lemma HasConcat(a: seq<Violation>, b: seq<Violation>, code: Code)
    ensures Has(a + b, code) <==> Has(a, code) || Has(b, code)
  {
    if Has(a, code) {
      var v :| v in a && v.code == code;
      assert v in a + b;
    }
    if Has(b, code) {
      var v :| v in b && v.code == code;
      assert v in a + b;
    }
  }

  lemma QuietConcat(a: seq<Violation>, b: seq<Violation>)
    requires Quiet(a) && Quiet(b)
    ensures Quiet(a + b)
  {
  }

  lemma QuietLaws()
    ensures forall a, b {:trigger Quiet(a + b)} :: Quiet(a) && Quiet(b) ==> Quiet(a + b)
    ensures forall ok, code, w :: code != DuplicateId && code != DuplicateClauseId ==> Quiet(Unless(ok, code, w))
    ensures forall code, w :: code != DuplicateId && code != DuplicateClauseId ==> Quiet([Violation(code, w)])
    ensures Quiet([])
  {
    forall a, b | Quiet(a) && Quiet(b)
      ensures Quiet(a + b)
    {
      QuietConcat(a, b);
    }
  }

  lemma QuietHasNone(vs: seq<Violation>)
    requires Quiet(vs)
    ensures !Has(vs, DuplicateId) && !Has(vs, DuplicateClauseId)
  {
  }

  lemma {:induction false} QuietCollect<T>(xs: seq<T>, f: T -> seq<Violation>)
    requires forall x :: Quiet(f(x))
    ensures Quiet(Collect(xs, f))
  {
    if xs != [] {
      QuietCollect(xs[..|xs| - 1], f);
      QuietConcat(Collect(xs[..|xs| - 1], f), f(xs[|xs| - 1]));
    }
  }

  lemma QuietFields(record: Record, where_: Where)
    ensures Quiet(Collect(REQUIRED_FIELDS, FieldRule(record, where_)))
  {
    QuietCollect(REQUIRED_FIELDS, FieldRule(record, where_));
  }

  lemma QuietHeader(tree: FileTree, record: Record, where_: Where)
    ensures Quiet(HeaderFindings(tree, record, where_))
  {
    QuietLaws();
    hide Quiet, Unless, StatusOf, IsOneOf, Argued, StatusIn, Get;
  }

  lemma QuietNodes(tree: FileTree, nodes: seq<Yaml>, etypes: seq<Yaml>, where_: Where)
    ensures Quiet(Collect(nodes, UnresolvedRule(tree, where_))) && Quiet(Collect(nodes, UnexplainedRule(etypes, where_)))
  {
    hide Resolves, Explained;
    QuietCollect(nodes, UnresolvedRule(tree, where_));
    QuietCollect(nodes, UnexplainedRule(etypes, where_));
  }

  lemma QuietTypes(nodes: seq<Yaml>, etypes: seq<Yaml>, where_: Where)
    ensures Quiet(Collect(etypes, UnknownTypeRule(where_))) && Quiet(Collect(etypes, UnusedRule(nodes, where_)))
  {
    hide IsOneOf, Used;
    QuietCollect(etypes, UnknownTypeRule(where_));
    QuietCollect(etypes, UnusedRule(nodes, where_));
  }

  lemma QuietEvidence(tree: FileTree, status: Option<string>, nodes: seq<Yaml>, etypes: seq<Yaml>, where_: Where)
    ensures Quiet(EvidenceFindings(tree, status, nodes, etypes, where_))
  {
    QuietNodes(tree, nodes, etypes, where_);
    QuietTypes(nodes, etypes, where_);
    QuietLaws();
    hide Quiet, Unless, Collect, StatusIn, UnresolvedRule, UnknownTypeRule, UnexplainedRule, UnusedRule, NEEDS_EVIDENCE,
      FORBIDS_EVIDENCE;
  }

  lemma QuietAxes(record: Record, status: Option<string>, evidence: seq<Yaml>, where_: Where)
    ensures Quiet(AxisFindings(record, status, evidence, where_))
  {
    forall axis
      ensures Quiet(AxisRule(record, evidence, where_)(axis))
    {
      QuietCollect(AsList(Get(record, axis)), CitedRule(evidence, where_));
    }
    QuietCollect(AXES, AxisRule(record, evidence, where_));
    QuietLaws();
    hide Quiet, Unless, Collect, AxisRule;
  }

  lemma QuietClauseNodes(tree: FileTree, evidence: seq<Yaml>, nodes: seq<Yaml>, where_: Where)
    ensures Quiet(Collect(nodes, ClauseNodeRule(tree, evidence, where_)))
  {
    hide Resolves;
    QuietCollect(nodes, ClauseNodeRule(tree, evidence, where_));
  }

  lemma QuietClauseBody(tree: FileTree, evidence: seq<Yaml>, clause: Record, where_: Where)
    ensures Quiet(ClauseBodyFindings(tree, evidence, clause, where_))
  {
    QuietClauseNodes(tree, evidence, AsList(Get(clause, "test_evidence")), where_);
    QuietLaws();
    hide Quiet, Unless, Collect, ClauseNodeRule, StatusOf, Get, AsList, NEEDS_EVIDENCE, FORBIDS_EVIDENCE;
  }

  lemma QuietClaim(status: Option<string>, statuses: seq<string>, where_: Where)
    ensures Quiet(ClaimFindings(status, statuses, where_))
  {
  }

  /** One clause brings a duplicate code exactly when its own id was seen before. */
  lemma OneClause(tree: FileTree, evidence: seq<Yaml>, clause: Yaml, seen: map<string, Where>, where_: Where)
    ensures !Has(ClauseFindings(tree, evidence, clause, seen, where_), DuplicateId)
    ensures Has(ClauseFindings(tree, evidence, clause, seen, where_), DuplicateClauseId)
        <==> NameOf(clause).Some? && NameOf(clause).value in seen
  {
    if clause.Map? {
      var inner := ClauseWhere(clause.fields, seen, where_);
      var head, text, body := ClauseIdFindings(clause.fields, seen, where_),
        Unless(HasText(clause.fields), MissingField, inner), ClauseBodyFindings(tree, evidence, clause.fields, inner);
      QuietClauseBody(tree, evidence, clause.fields, inner);
      QuietLaws();
      QuietHasNone(text);
      QuietHasNone(body);
      HeadDuplicates(clause.fields, seen, where_);
      hide Quiet, Has, Unless, ClauseIdFindings, ClauseBodyFindings, HasText, NameOf, ClauseWhere;
      HasConcat(head + text, body, DuplicateId);
      HasConcat(head + text, body, DuplicateClauseId);
      HasConcat(head, text, DuplicateId);
      HasConcat(head, text, DuplicateClauseId);
    }
  }

  lemma HeadDuplicates(clause: Record, seen: map<string, Where>, where_: Where)
    ensures !Has(ClauseIdFindings(clause, seen, where_), DuplicateId)
    ensures Has(ClauseIdFindings(clause, seen, where_), DuplicateClauseId)
        <==> NameOf(Map(clause)).Some? && NameOf(Map(clause)).value in seen
  {
    var found := ClauseIdFindings(clause, seen, where_);
    assert found != [] ==> found[0] in found;
  }

  lemma {:induction false} AllClausesOf(tree: FileTree, evidence: seq<Yaml>, clauses: seq<Yaml>, seen: map<string, Where>,
                                       where_: Where)
    ensures !Has(ClausesFindings(tree, evidence, clauses, seen, where_), DuplicateId)
    ensures Has(ClausesFindings(tree, evidence, clauses, seen, where_), DuplicateClauseId) <==> !NewNames(clauses, seen, where_)
  {
    hide ClauseFindings, NewNames, Has, SeenClauses, NameOf;
    if clauses == [] {
      NoNewNames(seen, where_);
      QuietHasNone([]);
    } else {
      var last := |clauses| - 1;
      AllClausesOf(tree, evidence, clauses[..last], seen, where_);
      var before := SeenClauses(seen, clauses[..last], where_);
      OneClause(tree, evidence, clauses[last], before, ClauseAt(where_, last));
      var a, b := ClausesFindings(tree, evidence, clauses[..last], seen, where_),
        ClauseFindings(tree, evidence, clauses[last], before, ClauseAt(where_, last));
      HasConcat(a, b, DuplicateId);
      HasConcat(a, b, DuplicateClauseId);
      NewNamesNext(clauses, seen, where_);
    }
  }

  lemma NoNewNames(seen: map<string, Where>, where_: Where)
    ensures NewNames([], seen, where_)
  {
  }

  lemma ClausePartDuplicates(tree: FileTree, record: Record, evidence: seq<Yaml>, seen: map<string, Where>, where_: Where)
    ensures !Has(ClausePartFindings(tree, record, evidence, seen, where_), DuplicateId)
    ensures Has(ClausePartFindings(tree, record, evidence, seen, where_), DuplicateClauseId)
        <==> HasClauses(record) && !NewNames(Get(record, "clauses").items, seen, where_)
  {
    if HasClauses(record) {
      var clauses := Get(record, "clauses").items;
      AllClausesOf(tree, evidence, clauses, seen, where_);
      QuietClaim(StatusOf(record), ClauseStatuses(clauses), where_);
      var a, b := ClausesFindings(tree, evidence, clauses, seen, where_),
        ClaimFindings(StatusOf(record), ClauseStatuses(clauses), where_);
      QuietHasNone(b);
      HasConcat(a, b, DuplicateId);
      HasConcat(a, b, DuplicateClauseId);
      hide Has, ClausesFindings, ClaimFindings, NewNames;
    }
  }

  lemma RecordDuplicates(tree: FileTree, record: Yaml, position: nat, ids: map<string, nat>, clauses: map<string, Where>)
    ensures Has(RecordFindings(tree, record, position, ids, clauses), DuplicateId)
        <==> NameOf(record).Some? && NameOf(record).value in ids
    ensures Has(RecordFindings(tree, record, position, ids, clauses), DuplicateClauseId)
        <==> record.Map? && HasClauses(record.fields)
             && !NewNames(Get(record.fields, "clauses").items, clauses, CriterionWhere(record.fields, position))
  {
    if record.Map? {
      var r, w := record.fields, CriterionWhere(record.fields, position);
      hide Has, Quiet, Collect, HeaderFindings, EvidenceFindings, AxisFindings, ClausePartFindings, NewNames, HasClauses,
        CriterionWhere, NameOf, IdFindings, StatusOf, Evidence, EvidenceTypes;
      var id, part := IdFindings(r, position, ids), ClausePartFindings(tree, r, Evidence(r), clauses, w);
      var fields, header := Collect(REQUIRED_FIELDS, FieldRule(r, w)), HeaderFindings(tree, r, w);
      var evidence, axes := EvidenceFindings(tree, StatusOf(r), Evidence(r), EvidenceTypes(r), w),
        AxisFindings(r, StatusOf(r), Evidence(r), w);
      QuietFields(r, w);
      QuietHeader(tree, r, w);
      QuietEvidence(tree, StatusOf(r), Evidence(r), EvidenceTypes(r), w);
      QuietAxes(r, StatusOf(r), Evidence(r), w);
      IdDuplicates(r, position, ids);
      ClausePartDuplicates(tree, r, Evidence(r), clauses, w);
      assert RecordFindings(tree, record, position, ids, clauses) == id + fields + header + evidence + axes + part;
      OnlyEndsCount(id, fields, header, evidence, axes, part, DuplicateId);
      OnlyEndsCount(id, fields, header, evidence, axes, part, DuplicateClauseId);
    } else {
      QuietLaws();
      QuietHasNone(RecordFindings(tree, record, position, ids, clauses));
    }
  }

  lemma OnlyEndsCount(a: seq<Violation>, b: seq<Violation>, c: seq<Violation>, d: seq<Violation>, e: seq<Violation>,
                      f: seq<Violation>, code: Code)
    requires Quiet(b) && Quiet(c) && Quiet(d) && Quiet(e) && (code == DuplicateId || code == DuplicateClauseId)
    ensures Has(a + b + c + d + e + f, code) <==> Has(a, code) || Has(f, code)
  {
    QuietHasNone(b);
    QuietHasNone(c);
    QuietHasNone(d);
    QuietHasNone(e);
    hide Has, Quiet;
    HasConcat(a, b, code);
    HasConcat(a + b, c, code);
    HasConcat(a + b + c, d, code);
    HasConcat(a + b + c + d, e, code);
    HasConcat(a + b + c + d + e, f, code);
  }

  lemma IdDuplicates(record: Record, position: nat, ids: map<string, nat>)
    ensures Has(IdFindings(record, position, ids), DuplicateId)
        <==> NameOf(Map(record)).Some? && NameOf(Map(record)).value in ids
    ensures !Has(IdFindings(record, position, ids), DuplicateClauseId)
  {
    var found := IdFindings(record, position, ids);
    assert found != [] ==> found[0] in found;
  }

  /**
   Exactly: `duplicate id` is reported if and only if two criteria share an id, `duplicate clause id`
   if and only if two clauses of the map share one, be they in one criterion or in two.
   */
  lemma {:induction false} DuplicatesReportedExactly(tree: FileTree, criteria: seq<Yaml>)
    ensures Has(CriteriaFindings(tree, criteria), DuplicateId) <==> !DistinctNames(criteria)
    ensures Has(CriteriaFindings(tree, criteria), DuplicateClauseId) <==> !DistinctNames(AllClauses(criteria))
  {
    hide RecordFindings, DistinctNames, NewNames, NameOf, Names, SeenIds, SeenClauseIds, Has, CriterionWhere, HasClauses;
    if criteria == [] {
      NothingRepeats();
      QuietHasNone([]);
    } else {
      var n := |criteria| - 1;
      var init, last := criteria[..n], criteria[n];
      assert criteria == init + [last];
      DuplicatesReportedExactly(tree, init);
      SeenIdsKeys(init);
      SeenClauseIdsKeys(init);
      DistinctNext(init, last);
      RecordDuplicates(tree, last, n, SeenIds(init), SeenClauseIds(init));
      var a, b := CriteriaFindings(tree, init), RecordFindings(tree, last, n, SeenIds(init), SeenClauseIds(init));
      HasConcat(a, b, DuplicateId);
      HasConcat(a, b, DuplicateClauseId);
      if last.Map? && HasClauses(last.fields) {
        HasClausesList(last.fields);
        var clauses := Get(last.fields, "clauses").items;
        DistinctAppended(AllClauses(init), clauses, SeenClauseIds(init), CriterionWhere(last.fields, n));
      } else {
        assert AllClauses(criteria) == AllClauses(init);
      }
    }
  }

  lemma HasClausesList(record: Record)
    requires HasClauses(record)
    ensures Get(record, "clauses").List?
  {
  }
}
