/**
 Code by code, when the validator reports what: each predicate says in the map's own words what is wrong
 with a record or a clause when a code is reported for it, and the lemmas that it is reported exactly
 then. The two duplicate codes are in module Duplicates.
 */
module Codes {
  import opened Wrappers
  import opened Text
  import opened Yaml
  import opened TestNodes
  import opened Vocabulary
  import opened Findings
  import opened Rules
  import opened Claims
  import opened Honesty

  predicate StatusOneOf(record: Record, a: string, b: string, c: string)
  {
    var status := Get(record, "status");
    status == Str(a) || status == Str(b) || status == Str(c)
  }

  predicate ClaimsProof(record: Record) { StatusOneOf(record, "covered", "partial", "partial") }

  predicate DeniesProof(record: Record)
  {
    StatusOneOf(record, "uncovered", "not_applicable", "product_decision_required")
  }

  predicate IsOpen(record: Record) { StatusOneOf(record, "partial", "uncovered", "uncovered") }

  // ---- criteria

  ghost predicate HeaderFault(tree: FileTree, record: Record, code: Code)
  {
    match code
    case MissingField => !NonEmptyStr(Get(record, "id")) || exists name :: IsRequired(name) && name !in record
    case UnknownStatus => !IsStatus(Get(record, "status"))
    case UnknownDocument => Get(record, "document").Str? && Get(record, "document").s !in tree
    case DebtClassRequired => IsOpen(record) && !IsDebtClass(Get(record, "debt_class"))
    case DebtClassNotAllowed => !IsOpen(record) && !Get(record, "debt_class").Null?
    case NotesRequired =>
      && IsStatus(Get(record, "status")) && Get(record, "status") != Str("covered")
      && !(Get(record, "notes").Str? && !Blank(Get(record, "notes").s))
    case _ => false
  }

  predicate IsKnownType(v: Yaml) { v.Str? && IsEvidenceType(v.s) }

  predicate HasTypeOf(node: Yaml, etype: Yaml) { etype.Str? && LivesAt(NodePath(node), etype.s) }

  ghost predicate EvidenceFault(tree: FileTree, record: Record, code: Code)
  {
    var nodes, etypes := Evidence(record), EvidenceTypes(record);
    match code
    case UnresolvedNode => exists n :: n in nodes && !RealTest(tree, n)
    case UnknownEvidenceType => exists t :: t in etypes && !IsKnownType(t)
    case EvidenceTypeMismatch =>
      || (exists n :: n in nodes && forall t :: t in etypes ==> !HasTypeOf(n, t))
      || (exists t :: t in etypes && IsKnownType(t) && forall n :: n in nodes ==> !HasTypeOf(n, t))
    case EmptyEvidence => ClaimsProof(record) && nodes == []
    case EvidenceOnEmptyStatus => DeniesProof(record) && nodes != []
    case _ => false
  }

  ghost predicate AxisFault(record: Record, code: Code)
  {
    match code
    case UnresolvedNode => exists axis, n :: IsAxis(axis) && n in AsList(Get(record, axis)) && !n.Str?
    case AxisNotInEvidence =>
      exists axis, n :: IsAxis(axis) && n in AsList(Get(record, axis)) && n.Str? && n !in Evidence(record)
    case AxisEvidenceTooWeak => exists axis :: TooWeak(axis, AsList(Get(record, axis)))
    case PositiveNegativeMissing =>
      && Get(record, "status") == Str("covered")
      && AsList(Get(record, "positive")) == [] && AsList(Get(record, "negative")) == []
    case _ => false
  }

  ghost predicate ClausesFault(record: Record, code: Code)
  {
    match code
    case NoClauses => !HasClauses(record)
    case StatusClauseMismatch =>
      && HasClauses(record)
      && exists c :: c in Get(record, "clauses").items && c.Map? && IsStatus(Get(c.fields, "status"))
                     && ((Get(record, "status") == Str("covered") && Get(c.fields, "status") != Str("covered"))
                         || (DeniesProof(record) && ClaimsProof(c.fields)))
    case _ => false
  }

  /** What is wrong with the criterion itself when this code is reported for it. */
  ghost predicate CriterionFault(tree: FileTree, record: Record, code: Code)
  {
    || HeaderFault(tree, record, code) || EvidenceFault(tree, record, code) || AxisFault(record, code)
    || ClausesFault(record, code)
  }

  // ---- clauses

  /** What is wrong with one of its clauses. */
  ghost predicate ClauseFault(tree: FileTree, evidence: seq<Yaml>, clause: Yaml, code: Code)
  {
    if !clause.Map? then code == BadClause
    else if code == MissingField then
      var c := clause.fields;
      !NonEmptyStr(Get(c, "id")) || "text" !in c || (c["text"].Str? && Blank(c["text"].s))
    else if !IsStatus(Get(clause.fields, "status")) then code == UnknownStatus
    else ClauseBodyFault(tree, evidence, clause.fields, code)
  }

  ghost predicate ClauseBodyFault(tree: FileTree, evidence: seq<Yaml>, c: Record, code: Code)
  {
    var nodes, marker := AsList(Get(c, "test_evidence")), Get(c, "unfalsifiable");
    match code
    case UnresolvedNode => exists n :: n in nodes && !RealTest(tree, n)
    case AxisNotInEvidence => exists n :: n in nodes && RealTest(tree, n) && n !in evidence
    case EmptyEvidence => ClaimsProof(c) && nodes == []
    case EvidenceOnEmptyStatus => DeniesProof(c) && nodes != []
    case BadUnfalsifiable => !marker.Null? && !marker.Bool?
    case UnfalsifiableNotUncovered => marker == Bool(true) && Get(c, "status") != Str("uncovered")
    case _ => false
  }

  predicate InClause(where_: Where)
  {
    where_.ClauseAt? || where_.ClauseId?
  }

  // ---- lists of findings

  lemma CollectWhich<T>(xs: seq<T>, f: T -> seq<Violation>, v: Violation)
    ensures v in Collect(xs, f) <==> exists x :: x in xs && v in f(x)
  {
    CollectMember(xs, f, v);
    hide Collect;
    if v in Collect(xs, f) {
      var i :| 0 <= i < |xs| && v in f(xs[i]);
      assert xs[i] in xs;
    }
  }

  /** A rule that finds one code in the elements that are not in order. */
  lemma CollectUnless<T>(xs: seq<T>, f: T -> seq<Violation>, ok: T -> bool, code: Code, w: Where, v: Violation)
    requires forall x :: x in xs ==> f(x) == Unless(ok(x), code, w)
    ensures v in Collect(xs, f) <==> v == Violation(code, w) && exists x :: x in xs && !ok(x)
  {
    CollectWhich(xs, f, v);
    hide Collect;
  }

  // ---- sections of a record

  lemma FieldsReport(record: Record, w: Where, v: Violation)
    ensures v in Collect(REQUIRED_FIELDS, FieldRule(record, w))
        <==> v == Violation(MissingField, w) && exists name :: IsRequired(name) && name !in record
  {
    CollectUnless(REQUIRED_FIELDS, FieldRule(record, w), (name: string) => name in record, MissingField, w, v);
    RequiredWords();
    hide REQUIRED_FIELDS, IsRequired, Collect;
  }

  lemma StatusMeans(record: Record)
    ensures StatusOf(record).Some? <==> IsStatus(Get(record, "status"))
    ensures StatusOf(record).Some? ==> Get(record, "status") == Str(StatusOf(record).value)
    ensures StatusIn(StatusOf(record), NEEDS_DEBT_CLASS) <==> IsOpen(record)
    ensures StatusIn(StatusOf(record), NEEDS_NOTES) <==>
            IsStatus(Get(record, "status")) && Get(record, "status") != Str("covered")
    ensures StatusIn(StatusOf(record), NEEDS_EVIDENCE) <==> ClaimsProof(record)
    ensures StatusIn(StatusOf(record), FORBIDS_EVIDENCE) <==> DeniesProof(record)
    ensures StatusOf(record) == Some("covered") <==> Get(record, "status") == Str("covered")
  {
    StatusWords();
    DebtWords();
    NotesWords();
    EvidenceWords();
    hide STATUSES, NEEDS_DEBT_CLASS, NEEDS_NOTES, NEEDS_EVIDENCE, FORBIDS_EVIDENCE, Get;
  }

  lemma HeaderReports(tree: FileTree, record: Record, w: Where, v: Violation)
    ensures v in HeaderFindings(tree, record, w)
        <==> v.where_ == w && v.code != MissingField && HeaderFault(tree, record, v.code)
  {
    StatusMeans(record);
    DebtWords();
    if Get(record, "notes").Str? {
      StripEmpty(Get(record, "notes").s);
    }
    hide StatusOf, StatusIn, IsStatus, IsOpen, IsDebtClass, IsOneOf, Get, Strip, Blank, DEBT_CLASSES;
  }

  lemma EvidenceReports(tree: FileTree, record: Record, w: Where, v: Violation)
    ensures v in EvidenceFindings(tree, StatusOf(record), Evidence(record), EvidenceTypes(record), w)
        <==> v.where_ == w && EvidenceFault(tree, record, v.code)
  {
    var nodes, etypes := Evidence(record), EvidenceTypes(record);
    StatusMeans(record);
    NodesReport(tree, nodes, w, v);
    TypesReport(nodes, etypes, w, v);
    hide StatusOf, StatusIn, ClaimsProof, DeniesProof, Evidence, EvidenceTypes, RealTest, IsKnownType, HasTypeOf, Collect,
      UnresolvedRule, UnknownTypeRule, UnexplainedRule, UnusedRule;
  }

  lemma NodesReport(tree: FileTree, nodes: seq<Yaml>, w: Where, v: Violation)
    ensures v in Collect(nodes, UnresolvedRule(tree, w))
        <==> v == Violation(UnresolvedNode, w) && exists n :: n in nodes && !RealTest(tree, n)
  {
    forall n | n in nodes
      ensures Resolves(tree, n) <==> RealTest(tree, n)
    {
      ResolvesExactly(tree, n);
    }
    CollectUnless(nodes, UnresolvedRule(tree, w), (n: Yaml) => Resolves(tree, n), UnresolvedNode, w, v);
    hide Collect, Resolves, RealTest;
  }

  lemma TypesReport(nodes: seq<Yaml>, etypes: seq<Yaml>, w: Where, v: Violation)
    ensures v in Collect(etypes, UnknownTypeRule(w))
        <==> v == Violation(UnknownEvidenceType, w) && exists t :: t in etypes && !IsKnownType(t)
    ensures v in Collect(nodes, UnexplainedRule(etypes, w))
        <==> v == Violation(EvidenceTypeMismatch, w) && exists n :: n in nodes && forall t :: t in etypes ==> !HasTypeOf(n, t)
    ensures v in Collect(etypes, UnusedRule(nodes, w))
        <==> && v == Violation(EvidenceTypeMismatch, w)
             && exists t :: t in etypes && IsKnownType(t) && forall n :: n in nodes ==> !HasTypeOf(n, t)
  {
    TypeWords();
    forall n, t
      ensures LivesUnder(n, t) <==> HasTypeOf(n, t)
    {
      LivesIsUnder(n, t);
    }
    CollectUnless(etypes, UnknownTypeRule(w), (t: Yaml) => IsOneOf(t, EVIDENCE_TYPES), UnknownEvidenceType, w, v);
    CollectUnless(nodes, UnexplainedRule(etypes, w), (n: Yaml) => Explained(n, etypes), EvidenceTypeMismatch, w, v);
    CollectUnless(etypes, UnusedRule(nodes, w), (t: Yaml) => IsOneOf(t, EVIDENCE_TYPES) ==> Used(t, nodes),
                  EvidenceTypeMismatch, w, v);
    hide Collect, LivesUnder, HasTypeOf, EVIDENCE_TYPES, IsEvidenceType;
  }

  ghost predicate OneAxisFault(record: Record, axis: string, code: Code)
  {
    var nodes := AsList(Get(record, axis));
    match code
    case UnresolvedNode => exists n :: n in nodes && !n.Str?
    case AxisNotInEvidence => exists n :: n in nodes && n.Str? && n !in Evidence(record)
    case AxisEvidenceTooWeak => TooWeak(axis, nodes)
    case _ => false
  }

  lemma OneAxisReports(record: Record, axis: string, w: Where, v: Violation)
    ensures v in AxisRule(record, Evidence(record), w)(axis) <==> v.where_ == w && OneAxisFault(record, axis, v.code)
  {
    var nodes := AsList(Get(record, axis));
    CollectWhich(nodes, CitedRule(Evidence(record), w), v);
    WeaknessWords(axis, nodes);
    hide Collect, HasRule, ProvenOn, TooWeak, Evidence;
  }

  lemma AxisListReports(record: Record, w: Where, v: Violation)
    ensures v in Collect(AXES, AxisRule(record, Evidence(record), w))
        <==> v.where_ == w && exists axis :: IsAxis(axis) && OneAxisFault(record, axis, v.code)
  {
    hide *;
    CollectWhich(AXES, AxisRule(record, Evidence(record), w), v);
    AxisWords();
    forall axis
      ensures v in AxisRule(record, Evidence(record), w)(axis) <==> v.where_ == w && OneAxisFault(record, axis, v.code)
    {
      OneAxisReports(record, axis, w, v);
    }
  }

  lemma WeakAreAxes(axis: string, nodes: seq<Yaml>)
    ensures TooWeak(axis, nodes) ==> IsAxis(axis)
  {
  }

  /** Neither direction of the claim is named. */
  predicate NoDirection(record: Record)
  {
    && Get(record, "status") == Str("covered")
    && AsList(Get(record, "positive")) == [] && AsList(Get(record, "negative")) == []
  }

  lemma AxisFaultMeans(record: Record, code: Code)
    ensures AxisFault(record, code) <==>
            || (exists axis :: IsAxis(axis) && OneAxisFault(record, axis, code))
            || (code == PositiveNegativeMissing && NoDirection(record))
  {
    forall axis
      ensures TooWeak(axis, AsList(Get(record, axis))) ==> IsAxis(axis)
    {
      WeakAreAxes(axis, AsList(Get(record, axis)));
    }
    hide Get, AsList, TooWeak, IsAxis, Evidence;
    if code == AxisEvidenceTooWeak {
      assert forall axis :: OneAxisFault(record, axis, code) <==> TooWeak(axis, AsList(Get(record, axis)));
    } else if code == UnresolvedNode {
      assert forall axis :: OneAxisFault(record, axis, code) <==> exists n :: n in AsList(Get(record, axis)) && !n.Str?;
    } else if code == AxisNotInEvidence {
      assert forall axis :: OneAxisFault(record, axis, code) <==>
                            exists n :: n in AsList(Get(record, axis)) && n.Str? && n !in Evidence(record);
    }
  }

  lemma DirectionReports(record: Record, evidence: seq<Yaml>, w: Where, v: Violation)
    ensures v in AxisFindings(record, StatusOf(record), evidence, w) <==>
            v in Collect(AXES, AxisRule(record, evidence, w)) || (v == Violation(PositiveNegativeMissing, w) && NoDirection(record))
  {
    StatusMeans(record);
    hide Collect, AxisRule, AXES, StatusOf, Get, AsList;
  }

  lemma AxesReport(record: Record, w: Where, v: Violation)
    ensures v in AxisFindings(record, StatusOf(record), Evidence(record), w)
        <==> v.where_ == w && AxisFault(record, v.code)
  {
    hide *;
    DirectionReports(record, Evidence(record), w, v);
    AxisListReports(record, w, v);
    AxisFaultMeans(record, v.code);
  }

  // ---- clauses

  lemma ClauseNodesReport(tree: FileTree, evidence: seq<Yaml>, nodes: seq<Yaml>, w: Where, v: Violation)
    ensures v in Collect(nodes, ClauseNodeRule(tree, evidence, w)) <==>
            && v.where_ == w
            && ((v.code == UnresolvedNode && exists n :: n in nodes && !RealTest(tree, n))
                || (v.code == AxisNotInEvidence && exists n :: n in nodes && RealTest(tree, n) && n !in evidence))
  {
    forall n | n in nodes
      ensures Resolves(tree, n) <==> RealTest(tree, n)
    {
      ResolvesExactly(tree, n);
    }
    CollectWhich(nodes, ClauseNodeRule(tree, evidence, w), v);
    hide Collect, Resolves, RealTest;
  }

  lemma ClauseStatusMeans(record: Record)
    requires IsStatus(Get(record, "status"))
    ensures StatusOf(record) == Some(Get(record, "status").s)
    ensures Get(record, "status").s in NEEDS_EVIDENCE <==> ClaimsProof(record)
    ensures Get(record, "status").s in FORBIDS_EVIDENCE <==> DeniesProof(record)
  {
    StatusWords();
    EvidenceWords();
    hide STATUSES, NEEDS_EVIDENCE, FORBIDS_EVIDENCE, Get;
  }

  lemma MarkerReports(marker: Yaml, status: string, w: Where, v: Violation)
    ensures v in MarkerFindings(marker, status, w) <==>
            && v.where_ == w
            && ((v.code == BadUnfalsifiable && !marker.Null? && !marker.Bool?)
                || (v.code == UnfalsifiableNotUncovered && marker == Bool(true) && status != "uncovered"))
  {
  }

  lemma ClauseBodyReports(tree: FileTree, evidence: seq<Yaml>, c: Record, w: Where, v: Violation)
    ensures v in ClauseBodyFindings(tree, evidence, c, w) <==>
            v.where_ == w && if IsStatus(Get(c, "status")) then ClauseBodyFault(tree, evidence, c, v.code)
                             else v.code == UnknownStatus
  {
    var nodes := AsList(Get(c, "test_evidence"));
    ClauseNodesReport(tree, evidence, nodes, w, v);
    StatusMeans(c);
    hide Collect, ClauseNodeRule, StatusOf, IsStatus, ClaimsProof, DeniesProof, Get, AsList, RealTest, NEEDS_EVIDENCE,
      FORBIDS_EVIDENCE;
    if IsStatus(Get(c, "status")) {
      ClauseStatusMeans(c);
      MarkerReports(Get(c, "unfalsifiable"), Get(c, "status").s, w, v);
      hide MarkerFindings;
    }
  }

  lemma TextMeans(c: Record)
    ensures HasText(c) <==> !("text" !in c || (c["text"].Str? && Blank(c["text"].s)))
  {
    if "text" in c && c["text"].Str? {
      StripEmpty(c["text"].s);
    }
    hide Strip, Blank;
  }

  /** One clause: the code is reported for it, somewhere in it, exactly when it has the fault. */
  lemma OneClauseReports(tree: FileTree, evidence: seq<Yaml>, clause: Yaml, seen: map<string, Where>, at: Where, v: Violation)
    requires at.ClauseAt? && v.code != DuplicateClauseId
    ensures v in ClauseFindings(tree, evidence, clause, seen, at) ==>
              InClause(v.where_) && ClauseFault(tree, evidence, clause, v.code)
    ensures ClauseFault(tree, evidence, clause, v.code) ==>
              exists u :: u in ClauseFindings(tree, evidence, clause, seen, at) && u.code == v.code
  {
    if clause.Map? {
      var inner := ClauseWhere(clause.fields, seen, at);
      ClauseBodyReports(tree, evidence, clause.fields, inner, v);
      ClauseBodyReports(tree, evidence, clause.fields, inner, Violation(v.code, inner));
      TextMeans(clause.fields);
      var head, text, body := ClauseIdFindings(clause.fields, seen, at), Unless(HasText(clause.fields), MissingField, inner),
                              ClauseBodyFindings(tree, evidence, clause.fields, inner);
      hide ClauseBodyFindings, HasText, IsStatus, Blank, Get, ClauseBodyFault;
      NoMissingInBody(tree, evidence, clause.fields);
      var all := head + text + body;
      assert ClauseFindings(tree, evidence, clause, seen, at) == all;
      assert v in all <==> v in head || v in text || v in body;
      if ClauseFault(tree, evidence, clause, v.code) {
        if v.code != MissingField {
          assert Violation(v.code, inner) in body;
        } else if !HasText(clause.fields) {
          assert Violation(MissingField, inner) in text;
        } else {
          assert Violation(MissingField, at) in head;
        }
      }
    } else {
      assert ClauseFindings(tree, evidence, clause, seen, at) == [Violation(BadClause, at)];
      assert Violation(BadClause, at) in [Violation(BadClause, at)];
    }
  }

  /** Where it is reported: under the clause's id if that is new, else at its position. */
  lemma OneClausePlaced(tree: FileTree, evidence: seq<Yaml>, clause: Yaml, seen: map<string, Where>, at: Where, v: Violation)
    requires v in ClauseFindings(tree, evidence, clause, seen, at)
    ensures v.where_ == if NameOf(clause).Some? && NameOf(clause).value !in seen then ClauseId(NameOf(clause).value) else at
  {
    if clause.Map? {
      var inner := ClauseWhere(clause.fields, seen, at);
      ClauseBodyReports(tree, evidence, clause.fields, inner, v);
      var head, text, body := ClauseIdFindings(clause.fields, seen, at), Unless(HasText(clause.fields), MissingField, inner),
                              ClauseBodyFindings(tree, evidence, clause.fields, inner);
      hide ClauseBodyFindings, HasText, IsStatus, Get, ClauseBodyFault;
      var all := head + text + body;
      assert ClauseFindings(tree, evidence, clause, seen, at) == all;
      assert v in all <==> v in head || v in text || v in body;
    } else {
      assert ClauseFindings(tree, evidence, clause, seen, at) == [Violation(BadClause, at)];
    }
  }

  /** One clause of one criterion, as the loop meets it: its place depends on the clauses in front of it. */
  lemma {:induction false} ClausePlaces(tree: FileTree, evidence: seq<Yaml>, clauses: seq<Yaml>, seen: map<string, Where>,
                                        w: Where, v: Violation)
    requires v in ClausesFindings(tree, evidence, clauses, seen, w)
    ensures exists k :: 0 <= k < |clauses|
                        && v.where_ == ClausePlace(clauses[k], w, k, seen.Keys + Honesty.Names(clauses[..k]))
  {
    hide ClauseFindings, SeenClauses, NameOf, Honesty.Names;
    var last := |clauses| - 1;
    var init, before := clauses[..last], SeenClauses(seen, clauses[..last], w);
    var a, b := ClausesFindings(tree, evidence, init, seen, w),
                ClauseFindings(tree, evidence, clauses[last], before, ClauseAt(w, last));
    assert v in a || v in b;
    if v in a {
      ClausePlaces(tree, evidence, init, seen, w, v);
      var k :| 0 <= k < last && v.where_ == ClausePlace(init[k], w, k, seen.Keys + Honesty.Names(init[..k]));
      assert init[..k] == clauses[..k] && init[k] == clauses[k];
    } else {
      OneClausePlaced(tree, evidence, clauses[last], before, ClauseAt(w, last), v);
      SeenClausesKeys(seen, init, w);
    }
  }

  /** Under its own id if no clause before it has that id, else at its position in the criterion. */
  function ClausePlace(clause: Yaml, criterion: Where, position: nat, used: set<string>): Where
  {
    match NameOf(clause)
    case Some(id) => if id in used then ClauseAt(criterion, position) else ClauseId(id)
    case None => ClauseAt(criterion, position)
  }

  lemma NoMissingInBody(tree: FileTree, evidence: seq<Yaml>, c: Record)
    ensures !ClauseBodyFault(tree, evidence, c, MissingField) && !ClauseBodyFault(tree, evidence, c, BadClause)
    ensures !ClauseBodyFault(tree, evidence, c, UnknownStatus)
  {
  }

  /** The clauses of one criterion: what is reported in them is what is wrong with one of them. */
  lemma {:induction false} ClausesReport(tree: FileTree, evidence: seq<Yaml>, clauses: seq<Yaml>, seen: map<string, Where>,
                                         w: Where, v: Violation)
    requires v.code != DuplicateClauseId
    ensures v in ClausesFindings(tree, evidence, clauses, seen, w) ==> InClause(v.where_)
    ensures (exists u :: u in ClausesFindings(tree, evidence, clauses, seen, w) && u.code == v.code)
        <==> exists c :: c in clauses && ClauseFault(tree, evidence, c, v.code)
  {
    hide ClauseFindings, ClauseFault, SeenClauses, InClause;
    if clauses != [] {
      var last := |clauses| - 1;
      var init, before := clauses[..last], SeenClauses(seen, clauses[..last], w);
      ClausesReport(tree, evidence, init, seen, w, v);
      var a, b := ClausesFindings(tree, evidence, init, seen, w), ClauseFindings(tree, evidence, clauses[last], before, ClauseAt(w, last));
      OneClauseReports(tree, evidence, clauses[last], before, ClauseAt(w, last), v);
      assert clauses == init + [clauses[last]];
      hide ClausesFindings;
      if u :| u in b && u.code == v.code {
        OneClauseReports(tree, evidence, clauses[last], before, ClauseAt(w, last), u);
      }
      if u :| u in a && u.code == v.code {
        assert u in a + b;
      }
      if ClauseFault(tree, evidence, clauses[last], v.code) {
        var u :| u in b && u.code == v.code;
        assert u in a + b;
      }
    }
  }

  // ---- the criterion's claim

  lemma {:induction false} CountedStatus(clauses: seq<Yaml>, s: string)
    ensures s in ClauseStatuses(clauses) <==>
            exists c :: c in clauses && c.Map? && IsStatus(Get(c.fields, "status")) && Get(c.fields, "status") == Str(s)
  {
    if clauses != [] {
      var last := clauses[|clauses| - 1];
      CountedStatus(clauses[..|clauses| - 1], s);
      assert clauses == clauses[..|clauses| - 1] + [last];
      if last.Map? {
        StatusMeans(last.fields);
      }
      hide StatusOf, IsStatus, Get;
    }
  }

  lemma ProvenWords(record: Record)
    requires IsStatus(Get(record, "status"))
    ensures Get(record, "status").s in NEEDS_EVIDENCE <==> ClaimsProof(record)
    ensures Rank(Get(record, "status").s) < 2 && Get(record, "status").s != "deliberate_future_dev" <==> DeniesProof(record)
  {
    EvidenceWords();
    hide Get;
  }

  lemma ClaimReports(record: Record, clauses: seq<Yaml>, w: Where, v: Violation)
    ensures v in ClaimFindings(StatusOf(record), ClauseStatuses(clauses), w) <==>
            && v == Violation(StatusClauseMismatch, w)
            && exists c :: c in clauses && c.Map? && IsStatus(Get(c.fields, "status"))
                           && ((Get(record, "status") == Str("covered") && Get(c.fields, "status") != Str("covered"))
                               || (DeniesProof(record) && ClaimsProof(c.fields)))
  {
    var statuses := ClauseStatuses(clauses);
    forall s
      ensures s in statuses <==>
              exists c :: c in clauses && c.Map? && IsStatus(Get(c.fields, "status")) && Get(c.fields, "status") == Str(s)
    {
      CountedStatus(clauses, s);
    }
    forall c | c in clauses && c.Map? && IsStatus(Get(c.fields, "status"))
      ensures Get(c.fields, "status").Str? && Get(c.fields, "status").s in statuses
      ensures Get(c.fields, "status").s in NEEDS_EVIDENCE <==> ClaimsProof(c.fields)
    {
      StatusIsString(c.fields);
      ProvenWords(c.fields);
    }
    StatusMeans(record);
    if IsStatus(Get(record, "status")) {
      ProvenWords(record);
    } else {
      DeniersAreStatuses(record);
    }
    hide ClauseStatuses, StatusOf, IsStatus, DeniesProof, ClaimsProof, Get, NEEDS_EVIDENCE, Rank;
  }

  lemma StatusIsString(record: Record)
    requires IsStatus(Get(record, "status"))
    ensures Get(record, "status").Str?
  {
  }

  lemma DeniersAreStatuses(record: Record)
    ensures DeniesProof(record) ==> IsStatus(Get(record, "status"))
  {
  }

  // ---- records and documents

  function ClausesIn(record: Yaml): seq<Yaml>
  {
    if record.Map? && HasClauses(record.fields) then Get(record.fields, "clauses").items else []
  }

  /** The two lists a criterion's clauses give: what is found in them, and what is found of the claim. */
  lemma TwoLists(tree: FileTree, record: Record, seen: map<string, Where>, w: Where) returns (a: seq<Violation>, b: seq<Violation>)
    requires HasClauses(record)
    ensures ClausePartFindings(tree, record, Evidence(record), seen, w) == a + b
    ensures a == ClausesFindings(tree, Evidence(record), ClausesIn(Map(record)), seen, w)
    ensures b == ClaimFindings(StatusOf(record), ClauseStatuses(ClausesIn(Map(record))), w)
  {
    hide ClausesFindings, ClaimFindings, ClauseStatuses, StatusOf, Evidence;
    a := ClausesFindings(tree, Evidence(record), ClausesIn(Map(record)), seen, w);
    b := ClaimFindings(StatusOf(record), ClauseStatuses(ClausesIn(Map(record))), w);
  }

  lemma NoClausesReport(tree: FileTree, record: Record, seen: map<string, Where>, w: Where)
    requires !HasClauses(record)
    ensures ClausePartFindings(tree, record, Evidence(record), seen, w) == [Violation(NoClauses, w)]
    ensures ClausesIn(Map(record)) == []
    ensures forall code :: ClausesFault(record, code) <==> code == NoClauses
  {
    hide Evidence;
  }

  lemma ClaimFault(record: Record, code: Code)
    requires HasClauses(record)
    ensures ClausesFault(record, code) <==>
            && code == StatusClauseMismatch
            && exists c :: c in ClausesIn(Map(record)) && c.Map? && IsStatus(Get(c.fields, "status"))
                           && ((Get(record, "status") == Str("covered") && Get(c.fields, "status") != Str("covered"))
                               || (DeniesProof(record) && ClaimsProof(c.fields)))
  {
    hide IsStatus, DeniesProof, ClaimsProof;
  }

  lemma ClausePartReports(tree: FileTree, record: Record, seen: map<string, Where>, w: Where, v: Violation)
    requires v.code != DuplicateClauseId && !InClause(w)
    ensures v in ClausePartFindings(tree, record, Evidence(record), seen, w) && !InClause(v.where_)
        <==> v.where_ == w && ClausesFault(record, v.code)
  {
    hide *;
    if HasClauses(record) {
      var a, b := TwoLists(tree, record, seen, w);
      ClausesReport(tree, Evidence(record), ClausesIn(Map(record)), seen, w, v);
      ClaimReports(record, ClausesIn(Map(record)), w, v);
      ClaimFault(record, v.code);
    } else {
      NoClausesReport(tree, record, seen, w);
    }
  }

  lemma ClausePartInside(tree: FileTree, record: Record, seen: map<string, Where>, w: Where, v: Violation)
    requires v.code != DuplicateClauseId && !InClause(w)
    ensures (exists u :: u in ClausePartFindings(tree, record, Evidence(record), seen, w) && InClause(u.where_)
                         && u.code == v.code)
        <==> exists c :: c in ClausesIn(Map(record)) && ClauseFault(tree, Evidence(record), c, v.code)
  {
    hide *;
    if HasClauses(record) {
      var a, b := TwoLists(tree, record, seen, w);
      ClausesReport(tree, Evidence(record), ClausesIn(Map(record)), seen, w, v);
      forall u: Violation | u.code == v.code
        ensures u in a + b && InClause(u.where_) <==> u in a
      {
        ClausesReport(tree, Evidence(record), ClausesIn(Map(record)), seen, w, u);
        ClaimReports(record, ClausesIn(Map(record)), w, u);
      }
    } else {
      NoClausesReport(tree, record, seen, w);
    }
  }

  /** Where a criterion's violations are placed: under its id, or its position when it has none. */
  function Place(record: Yaml, position: nat): Where
  {
    match NameOf(record)
    case Some(id) => CriterionId(id)
    case None => Position(position)
  }

  ghost predicate Fault(tree: FileTree, record: Yaml, code: Code)
  {
    if record.Map? then CriterionFault(tree, record.fields, code) else code == BadRecord
  }

  lemma IdReports(record: Record, position: nat, ids: map<string, nat>, v: Violation)
    requires v.code != DuplicateId
    ensures v in IdFindings(record, position, ids) <==>
            v == Violation(MissingField, CriterionWhere(record, position)) && !NonEmptyStr(Get(record, "id"))
    ensures CriterionWhere(record, position) == Place(Map(record), position) && !InClause(CriterionWhere(record, position))
  {
    hide Get;
  }

  lemma OtherParts(record: Record, tree: FileTree, code: Code)
    ensures code == MissingField ==> !EvidenceFault(tree, record, code) && !AxisFault(record, code) && !ClausesFault(record, code)
  {
  }

  /** Whether a violation is among six lists. */
  lemma InSix(a: seq<Violation>, b: seq<Violation>, c: seq<Violation>, d: seq<Violation>, e: seq<Violation>,
              f: seq<Violation>, v: Violation)
    ensures v in a + b + c + d + e + f <==> v in a || v in b || v in c || v in d || v in e || v in f
  {
  }

  lemma RecordReports(tree: FileTree, record: Record, position: nat, ids: map<string, nat>, seen: map<string, Where>,
                      v: Violation)
    requires v.code != DuplicateId && v.code != DuplicateClauseId
    ensures v in RecordFindings(tree, Map(record), position, ids, seen) && !InClause(v.where_)
        <==> v.where_ == Place(Map(record), position) && CriterionFault(tree, record, v.code)
    ensures v in RecordFindings(tree, Map(record), position, ids, seen) && InClause(v.where_)
        <==> v in ClausePartFindings(tree, record, Evidence(record), seen, CriterionWhere(record, position))
             && InClause(v.where_)
  {
    var w := CriterionWhere(record, position);
    IdReports(record, position, ids, v);
    FieldsReport(record, w, v);
    HeaderReports(tree, record, w, v);
    EvidenceReports(tree, record, w, v);
    AxesReport(record, w, v);
    ClausePartReports(tree, record, seen, w, v);
    OtherParts(record, tree, v.code);
    hide IdFindings, HeaderFindings, EvidenceFindings, AxisFindings, ClausePartFindings, Collect, EvidenceFault, AxisFault,
      ClausesFault, StatusOf, Evidence, EvidenceTypes, CriterionWhere, Place, InClause, Get, NonEmptyStr, IsRequired,
      IsStatus, IsOpen, IsDebtClass, ClauseFault, ClausesIn;
    InSix(IdFindings(record, position, ids), Collect(REQUIRED_FIELDS, FieldRule(record, w)), HeaderFindings(tree, record, w),
          EvidenceFindings(tree, StatusOf(record), Evidence(record), EvidenceTypes(record), w),
          AxisFindings(record, StatusOf(record), Evidence(record), w),
          ClausePartFindings(tree, record, Evidence(record), seen, w), v);
  }

  /** One record, whatever was seen before it: each code under its own place, and each code in its clauses. */
  lemma AnyRecordReports(tree: FileTree, record: Yaml, position: nat, ids: map<string, nat>, seen: map<string, Where>,
                         v: Violation)
    requires v.code != DuplicateId && v.code != DuplicateClauseId
    ensures v in RecordFindings(tree, record, position, ids, seen) && !InClause(v.where_)
        <==> v.where_ == Place(record, position) && Fault(tree, record, v.code)
    ensures (exists u :: u in RecordFindings(tree, record, position, ids, seen) && InClause(u.where_) && u.code == v.code)
        <==> record.Map? && exists c :: c in ClausesIn(record) && ClauseFault(tree, Evidence(record.fields), c, v.code)
  {
    hide CriterionFault, ClauseFault, ClausesIn, ClausePartFindings;
    if record.Map? {
      var w := CriterionWhere(record.fields, position);
      IdReports(record.fields, position, ids, v);
      RecordReports(tree, record.fields, position, ids, seen, v);
      ClausePartInside(tree, record.fields, seen, w, v);
      hide RecordFindings, Place, Evidence, CriterionWhere, InClause;
      forall u: Violation | u.code == v.code
        ensures u in RecordFindings(tree, record, position, ids, seen) && InClause(u.where_)
            <==> u in ClausePartFindings(tree, record.fields, Evidence(record.fields), seen, w) && InClause(u.where_)
      {
        RecordReports(tree, record.fields, position, ids, seen, u);
      }
    } else {
      assert RecordFindings(tree, record, position, ids, seen) == [Violation(BadRecord, Position(position))];
    }
  }

  /** Over all criteria: what is reported for them, and where, is what is wrong with them. */
  lemma {:induction false} CriteriaReport(tree: FileTree, criteria: seq<Yaml>, v: Violation)
    requires v.code != DuplicateId && v.code != DuplicateClauseId
    ensures v in CriteriaFindings(tree, criteria) && !InClause(v.where_)
        <==> !InClause(v.where_) && exists i :: 0 <= i < |criteria| && Faulty(tree, criteria[i], i, v)
    ensures (exists u :: u in CriteriaFindings(tree, criteria) && InClause(u.where_) && u.code == v.code)
        <==> exists r :: r in criteria && FaultyClause(tree, r, v.code)
  {
    hide RecordFindings, SeenIds, SeenClauseIds, Faulty, FaultyClause, InClause;
    if criteria != [] {
      var n := |criteria| - 1;
      var init, last := criteria[..n], criteria[n];
      CriteriaReport(tree, init, v);
      var ids, seen := SeenIds(init), SeenClauseIds(init);
      RecordFaulty(tree, last, n, ids, seen, v);
      assert criteria == init + [last];
      assert forall i :: 0 <= i < n ==> criteria[i] == init[i];
      var a, b := CriteriaFindings(tree, init), RecordFindings(tree, last, n, ids, seen);
      assert CriteriaFindings(tree, criteria) == a + b;
      assert v in a + b <==> v in a || v in b;
      hide CriteriaFindings;
      if u :| u in a && InClause(u.where_) && u.code == v.code {
        assert u in a + b;
      }
      if u :| u in b && InClause(u.where_) && u.code == v.code {
        assert u in a + b;
      }
    }
  }

  /** The violation is about this criterion, and it has that fault. */
  ghost predicate Faulty(tree: FileTree, record: Yaml, position: nat, v: Violation)
  {
    v.where_ == Place(record, position) && Fault(tree, record, v.code)
  }

  ghost predicate FaultyClause(tree: FileTree, record: Yaml, code: Code)
  {
    record.Map? && exists c :: c in ClausesIn(record) && ClauseFault(tree, Evidence(record.fields), c, code)
  }

  lemma RecordFaulty(tree: FileTree, record: Yaml, position: nat, ids: map<string, nat>, seen: map<string, Where>, v: Violation)
    requires v.code != DuplicateId && v.code != DuplicateClauseId
    ensures v in RecordFindings(tree, record, position, ids, seen) && !InClause(v.where_)
        <==> !InClause(v.where_) && Faulty(tree, record, position, v)
    ensures (exists u :: u in RecordFindings(tree, record, position, ids, seen) && InClause(u.where_) && u.code == v.code)
        <==> FaultyClause(tree, record, v.code)
  {
    AnyRecordReports(tree, record, position, ids, seen, v);
    hide RecordFindings, Fault, ClauseFault, ClausesIn, Evidence;
  }

  /**
   The validator's whole report, code by code: a code stands under a criterion if and only if that
   criterion has the fault the code names, and it stands in a clause if and only if some clause has it.
   */
  lemma ReportedExactly(tree: FileTree, document: Yaml, v: Violation)
    requires VerdictOn(tree, document).Findings? && v.code != DuplicateId && v.code != DuplicateClauseId
    ensures var report := VerdictOn(tree, document).violations;
            && (v.code == BadRoot || !HasCriteria(document) ==>
                  (v in report <==> v == Violation(BadRoot, MapFile) && !HasCriteria(document)))
            && (HasCriteria(document) && !InClause(v.where_) ==>
                  (v in report <==> exists i :: 0 <= i < |Criteria(document)| && Faulty(tree, Criteria(document)[i], i, v)))
            && (HasCriteria(document) ==>
                  ((exists u :: u in report && InClause(u.where_) && u.code == v.code) <==>
                     exists r :: r in Criteria(document) && FaultyClause(tree, r, v.code)))
  {
    if HasCriteria(document) {
      CriteriaReport(tree, Criteria(document), v);
      NoRootFault(tree, Criteria(document));
    }
    hide CriteriaFindings, CriteriaRaise, Faulty, FaultyClause;
    hide HasCriteria, Criteria, InClause;
  }

  lemma NoRootFault(tree: FileTree, criteria: seq<Yaml>)
    ensures forall v :: v in CriteriaFindings(tree, criteria) ==> v.code != BadRoot
  {
    hide CriteriaFindings, Fault, ClauseFault, ClausesIn, Place;
    forall record
      ensures !Fault(tree, record, BadRoot) && !FaultyClause(tree, record, BadRoot)
    {
      NoRecordIsRoot(tree, record);
    }
    hide FaultyClause;
    forall v | v in CriteriaFindings(tree, criteria)
      ensures v.code != BadRoot
    {
      if v.code != DuplicateId && v.code != DuplicateClauseId {
        CriteriaReport(tree, criteria, v);
      }
    }
  }

  lemma NoRecordIsRoot(tree: FileTree, record: Yaml)
    ensures !Fault(tree, record, BadRoot) && !FaultyClause(tree, record, BadRoot)
  {
  }

  /** When it has no report to give: a type that cannot be looked up, or one that cannot be joined into a message. */
  lemma RaisesExactly(tree: FileTree, document: Yaml)
    ensures VerdictOn(tree, document).TypeError? <==>
            && HasCriteria(document)
            && exists r :: r in Criteria(document) && r.Map?
                           && var nodes, etypes := Evidence(r.fields), EvidenceTypes(r.fields);
                           || (exists t :: t in etypes && (t.List? || t.Map?))
                           || (&& (exists t :: t in etypes && !t.Str?)
                               && exists n :: n in nodes && forall t :: t in etypes ==> !HasTypeOf(n, t))
  {
    forall n, t
      ensures LivesUnder(n, t) <==> HasTypeOf(n, t)
    {
      LivesIsUnder(n, t);
    }
    hide LivesUnder, HasTypeOf, CriteriaFindings, Evidence, EvidenceTypes, HasCriteria, Criteria;
  }
}
