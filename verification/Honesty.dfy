/**
 What "the map cannot lie" means, stated without the validator's loops: the validator accepts a
 document exactly when it is honest. Consequences for accepted documents follow.
 */
module Honesty {
  import opened Wrappers
  import opened Text
  import opened Yaml
  import opened TestNodes
  import opened Vocabulary
  import opened Findings
  import opened Rules
  import opened Claims

  // ---- evidence types

  /** The node's file lives under the root of the evidence type. */
  predicate Under(node: Yaml, etype: string)
  {
    LivesAt(NodePath(node), etype)
  }

  const TYPES: set<string> :=
    {"backend_unit", "backend_integration", "backend_contract", "backend_deterministic", "backend_acceptance",
     "frontend_component", "e2e"}

  /** The evidence types the cited nodes really have. */
  function CitedTypes(nodes: seq<Yaml>): set<string>
  {
    set t | t in TYPES && exists n :: n in nodes && Under(n, t)
  }

  function DeclaredTypes(etypes: seq<Yaml>): set<string>
  {
    set t | t in etypes && t.Str? :: t.s
  }

  /** The declared types are exactly the types of the cited nodes, and every node has one. */
  ghost predicate HonestTypes(nodes: seq<Yaml>, etypes: seq<Yaml>)
  {
    && AllStr(etypes)
    && DeclaredTypes(etypes) == CitedTypes(nodes)
    && forall n :: n in nodes ==> exists t :: Under(n, t)
  }

  // ---- the declarative predicate

  predicate Open(status: string) { status == "partial" || status == "uncovered" }

  predicate Proven(status: string) { status == "covered" || status == "partial" }

  predicate Unproven(status: string)
  {
    status == "uncovered" || status == "not_applicable" || status == "product_decision_required"
  }

  ghost predicate RealTest(tree: FileTree, node: Yaml)
  {
    node.Str? && !Blank(node.s) && NamesRealTest(tree, node.s)
  }

  /** A cited list backs a status: evidence where it claims some, none where it denies any. */
  predicate Backs(nodes: seq<Yaml>, status: string)
  {
    (Proven(status) ==> nodes != []) && (Unproven(status) ==> nodes == [])
  }

  /** Every entry of the axis is cited evidence, and a server-truth axis rests on a server test. */
  ghost predicate HonestAxis(record: Record, axis: string)
  {
    var nodes := AsList(Get(record, axis));
    && (forall n :: n in nodes ==> n.Str? && n in Evidence(record))
    && !TooWeak(axis, nodes)
  }

  ghost predicate HonestClause(tree: FileTree, evidence: seq<Yaml>, clause: Yaml)
  {
    && clause.Map?
    && var c := clause.fields;
    && NonEmptyStr(Get(c, "id")) && HasText(c)
    && IsStatus(Get(c, "status"))
    && var status, nodes, marker := Get(c, "status").s, AsList(Get(c, "test_evidence")), Get(c, "unfalsifiable");
    && (forall n :: n in nodes ==> RealTest(tree, n) && n in evidence)
    && Backs(nodes, status)
    && (marker.Null? || marker.Bool?)
    && (marker == Bool(true) ==> status == "uncovered")
  }

  ghost predicate HonestHeader(tree: FileTree, record: Record)
  {
    && NonEmptyStr(Get(record, "id"))
    && (forall name :: IsRequired(name) ==> name in record)
    && IsStatus(Get(record, "status"))
    && var status, doc, debt := Get(record, "status").s, Get(record, "document"), Get(record, "debt_class");
    && (doc.Str? ==> doc.s in tree)
    && (if Open(status) then IsDebtClass(debt) else debt.Null?)
    && (status == "covered" || (Get(record, "notes").Str? && !Blank(Get(record, "notes").s)))
  }

  ghost predicate HonestProof(tree: FileTree, record: Record)
    requires IsStatus(Get(record, "status"))
  {
    var status := Get(record, "status").s;
    && (forall n :: n in Evidence(record) ==> RealTest(tree, n))
    && HonestTypes(Evidence(record), EvidenceTypes(record))
    && Backs(Evidence(record), status)
    && (forall axis :: IsAxis(axis) ==> HonestAxis(record, axis))
    && (status == "covered" ==> AsList(Get(record, "positive")) != [] || AsList(Get(record, "negative")) != [])
  }

  predicate AllCovered(clauses: seq<Yaml>)
  {
    forall c :: c in clauses ==> c.Map? && Get(c.fields, "status") == Str("covered")
  }

  /** Every clause is honest, and a covered criterion has covered clauses only. */
  ghost predicate HonestClauses(tree: FileTree, record: Record)
    requires IsStatus(Get(record, "status"))
  {
    && HasClauses(record)
    && (forall c :: c in Get(record, "clauses").items ==> HonestClause(tree, Evidence(record), c))
    && (Get(record, "status").s == "covered" ==> AllCovered(Get(record, "clauses").items))
  }

  ghost predicate HonestRecord(tree: FileTree, record: Yaml)
  {
    && record.Map?
    && HonestHeader(tree, record.fields)
    && HonestProof(tree, record.fields)
    && HonestClauses(tree, record.fields)
  }

  /** The clauses of all criteria, in order of appearance. */
  function AllClauses(criteria: seq<Yaml>): seq<Yaml>
  {
    if criteria == [] then []
    else
      var last := criteria[|criteria| - 1];
      AllClauses(criteria[..|criteria| - 1])
      + if last.Map? && HasClauses(last.fields) then Get(last.fields, "clauses").items else []
  }

  /** The usable id of a criterion or clause. */
  function NameOf(v: Yaml): Option<string>
  {
    if v.Map? && NonEmptyStr(Get(v.fields, "id")) then Some(Get(v.fields, "id").s) else None
  }

  ghost predicate DistinctNames(vs: seq<Yaml>)
  {
    forall i, j :: 0 <= i < j < |vs| ==> NameOf(vs[i]).None? || NameOf(vs[i]) != NameOf(vs[j])
  }

  /** Every record is honest, no two criteria share an id and no two clauses of the map share one. */
  ghost predicate Honest(tree: FileTree, document: Yaml)
  {
    && HasCriteria(document)
    && (forall record :: record in Criteria(document) ==> HonestRecord(tree, record))
    && DistinctNames(Criteria(document))
    && DistinctNames(AllClauses(Criteria(document)))
  }

  predicate Accepted(tree: FileTree, document: Yaml)
  {
    VerdictOn(tree, document) == Findings([])
  }

  // ---- evidence types: at most one per node

  /** The letters by which the roots differ. */
  lemma RootLetters(t: string)
    requires t in EVIDENCE_TYPES
    ensures |RootOf(t)| >= 13
    ensures RootOf(t)[0] == 'f' && RootOf(t)[9] == 's' ==> t == "frontend_component"
    ensures RootOf(t)[0] == 'f' && RootOf(t)[9] != 's' ==> t == "e2e"
    ensures RootOf(t)[0] != 'f' ==>
              |RootOf(t)| >= 19 && t == match RootOf(t)[14]
                                        case 'u' => "backend_unit"
                                        case 'i' => "backend_integration"
                                        case 'c' => "backend_contract"
                                        case 'd' => "backend_deterministic"
                                        case _ => "backend_acceptance"
  {
  }

  lemma RootsApart(path: string, t: string, u: string)
    requires t in EVIDENCE_TYPES && u in EVIDENCE_TYPES
    requires StartsWith(path, RootOf(t)) && StartsWith(path, RootOf(u))
    ensures t == u
  {
    RootLetters(t);
    RootLetters(u);
    hide RootOf, EVIDENCE_TYPES;
  }

  lemma OneTypePerNode(node: Yaml, t: string, u: string)
    requires Under(node, t) && Under(node, u)
    ensures t == u
  {
    RootWords(NodePath(node), t);
    RootWords(NodePath(node), u);
    RootsApart(NodePath(node), t, u);
  }

  lemma LivesIsUnder(node: Yaml, etype: Yaml)
    ensures LivesUnder(node, etype) <==> etype.Str? && Under(node, etype.s)
    ensures LivesUnder(node, etype) ==> IsOneOf(etype, EVIDENCE_TYPES)
  {
    if etype.Str? {
      RootWords(NodePath(node), etype.s);
    }
    hide EVIDENCE_TYPES, RootOf, LivesAt, NodePath;
  }

  predicate RulesPass(nodes: seq<Yaml>, etypes: seq<Yaml>)
  {
    && (forall t :: t in etypes ==> IsOneOf(t, EVIDENCE_TYPES))
    && (forall n :: n in nodes ==> Explained(n, etypes))
    && (forall t :: t in etypes ==> Used(t, nodes))
  }

  lemma CitedType(nodes: seq<Yaml>, t: string)
    ensures t in CitedTypes(nodes) <==> exists n :: n in nodes && Under(n, t)
  {
    TypesLive(t);
    hide NodePath, LivesAt, TYPES;
  }

  lemma TypesLive(t: string)
    ensures t !in TYPES ==> forall path :: !LivesAt(path, t)
  {
  }

  lemma HonestTypesPass(nodes: seq<Yaml>, etypes: seq<Yaml>)
    requires HonestTypes(nodes, etypes)
    ensures RulesPass(nodes, etypes)
  {
    hide LivesUnder, Under, IsOneOf, CitedTypes;
    forall t | t in etypes
      ensures IsOneOf(t, EVIDENCE_TYPES) && Used(t, nodes)
    {
      assert t.s in DeclaredTypes(etypes);
      CitedType(nodes, t.s);
      var n :| n in nodes && Under(n, t.s);
      LivesIsUnder(n, t);
    }
    forall n | n in nodes
      ensures Explained(n, etypes)
    {
      var t :| Under(n, t);
      CitedType(nodes, t);
      var u :| u in etypes && u.Str? && u.s == t;
      LivesIsUnder(n, u);
    }
  }

  /** Passing the rules, a type is declared exactly when a cited node has it. */
  lemma PassingTypeExact(nodes: seq<Yaml>, etypes: seq<Yaml>, t: string)
    requires RulesPass(nodes, etypes)
    ensures t in DeclaredTypes(etypes) <==> t in CitedTypes(nodes)
  {
    hide LivesUnder, Under, IsOneOf, CitedTypes;
    CitedType(nodes, t);
    if n :| n in nodes && Under(n, t) {
      var u :| u in etypes && LivesUnder(n, u);
      LivesIsUnder(n, u);
      OneTypePerNode(n, t, u.s);
    }
    if t in DeclaredTypes(etypes) {
      var u :| u in etypes && u.Str? && u.s == t;
      var n :| n in nodes && LivesUnder(n, u);
      LivesIsUnder(n, u);
    }
  }

  lemma PassingTypesHonest(nodes: seq<Yaml>, etypes: seq<Yaml>)
    requires RulesPass(nodes, etypes)
    ensures HonestTypes(nodes, etypes)
  {
    assert AllStr(etypes);
    hide LivesUnder, Under, IsOneOf, CitedTypes, DeclaredTypes;
    forall t
      ensures t in CitedTypes(nodes) <==> t in DeclaredTypes(etypes)
    {
      PassingTypeExact(nodes, etypes, t);
    }
    forall n | n in nodes
      ensures exists t :: Under(n, t)
    {
      var u :| u in etypes && LivesUnder(n, u);
      LivesIsUnder(n, u);
    }
  }

  // ---- each part of a record passes exactly when it is honest

  lemma FieldsExact(record: Record, where_: Where)
    ensures Collect(REQUIRED_FIELDS, FieldRule(record, where_)) == []
        <==> forall name :: IsRequired(name) ==> name in record
  {
    RequiredExact(REQUIRED_FIELDS, record, where_);
    RequiredWords();
    hide REQUIRED_FIELDS, IsRequired, Collect;
  }

  lemma RequiredExact(names: seq<string>, record: Record, where_: Where)
    ensures Collect(names, FieldRule(record, where_)) == [] <==> forall name :: name in names ==> name in record
  {
    var rule := FieldRule(record, where_);
    CollectEmpty(names, rule);
    forall i | 0 <= i < |names|
      ensures rule(names[i]) == [] <==> names[i] in record
    {
    }
  }

  lemma HeaderExact(tree: FileTree, record: Record, where_: Where)
    ensures NonEmptyStr(Get(record, "id")) && Collect(REQUIRED_FIELDS, FieldRule(record, where_)) == []
            && HeaderFindings(tree, record, where_) == []
        <==> HonestHeader(tree, record)
  {
    FieldsExact(record, where_);
    StatusWords();
    DebtWords();
    NotesWords();
    hide Collect, FieldRule, STATUSES, DEBT_CLASSES, NEEDS_NOTES, NEEDS_DEBT_CLASS, IsDebtClass, IsRequired;
    if Get(record, "notes").Str? {
      StripEmpty(Get(record, "notes").s);
    }
    hide Strip, Blank;
  }

  lemma TypeFindingsExact(nodes: seq<Yaml>, etypes: seq<Yaml>, where_: Where)
    ensures && Collect(etypes, UnknownTypeRule(where_)) == []
            && Collect(nodes, UnexplainedRule(etypes, where_)) == []
            && Collect(etypes, UnusedRule(nodes, where_)) == []
        <==> HonestTypes(nodes, etypes)
  {
    ListExact(etypes, UnknownTypeRule(where_), (t: Yaml) => IsOneOf(t, EVIDENCE_TYPES));
    ListExact(nodes, UnexplainedRule(etypes, where_), (n: Yaml) => Explained(n, etypes));
    ListExact(etypes, UnusedRule(nodes, where_), (t: Yaml) => IsOneOf(t, EVIDENCE_TYPES) ==> Used(t, nodes));
    hide Collect, HonestTypes, Explained, Used, IsOneOf;
    if HonestTypes(nodes, etypes) {
      HonestTypesPass(nodes, etypes);
    }
    if RulesPass(nodes, etypes) {
      PassingTypesHonest(nodes, etypes);
    }
  }

  lemma ResolvedExact(tree: FileTree, nodes: seq<Yaml>, where_: Where)
    ensures Collect(nodes, UnresolvedRule(tree, where_)) == [] <==> forall n :: n in nodes ==> RealTest(tree, n)
  {
    ListExact(nodes, UnresolvedRule(tree, where_), (n: Yaml) => Resolves(tree, n));
    forall n | n in nodes
      ensures Resolves(tree, n) <==> RealTest(tree, n)
    {
      ResolvesExactly(tree, n);
    }
    hide Collect, Resolves, RealTest;
  }

  lemma EvidenceExact(tree: FileTree, status: string, nodes: seq<Yaml>, etypes: seq<Yaml>, where_: Where)
    requires IsStatus(Str(status))
    ensures EvidenceFindings(tree, Some(status), nodes, etypes, where_) == []
        <==> && (forall n :: n in nodes ==> RealTest(tree, n))
             && HonestTypes(nodes, etypes)
             && Backs(nodes, status)
  {
    TypeFindingsExact(nodes, etypes, where_);
    ResolvedExact(tree, nodes, where_);
    EvidenceWords();
    hide Collect, HonestTypes, RealTest, UnresolvedRule, UnknownTypeRule, UnexplainedRule, UnusedRule, NEEDS_EVIDENCE,
      FORBIDS_EVIDENCE;
  }

  /** Raising needs a type that is not a known string, so honest types never raise. */
  lemma HonestTypesNeverRaise(nodes: seq<Yaml>, etypes: seq<Yaml>)
    requires HonestTypes(nodes, etypes)
    ensures !EvidenceRaises(nodes, etypes)
  {
    HonestTypesPass(nodes, etypes);
    TypesAreStrings(etypes);
    hide HonestTypes, Explained, Used, IsOneOf;
  }

  lemma TypesAreStrings(etypes: seq<Yaml>)
    requires forall t :: t in etypes ==> IsOneOf(t, EVIDENCE_TYPES)
    ensures AllStr(etypes) && forall t :: t in etypes ==> Hashable(t)
  {
  }

  /** A loop that appends nothing for the good elements finds nothing exactly when all are good. */
  lemma ListExact<T>(xs: seq<T>, rule: T -> seq<Violation>, good: T -> bool)
    requires forall x :: x in xs ==> (rule(x) == [] <==> good(x))
    ensures Collect(xs, rule) == [] <==> forall x :: x in xs ==> good(x)
  {
    CollectEmpty(xs, rule);
  }

  lemma AxisExact(record: Record, where_: Where, axis: string)
    ensures AxisRule(record, Evidence(record), where_)(axis) == [] <==> HonestAxis(record, axis)
  {
    var nodes := AsList(Get(record, axis));
    ListExact(nodes, CitedRule(Evidence(record), where_), (n: Yaml) => n.Str? && n in Evidence(record));
    WeaknessWords(axis, nodes);
    hide Collect, HasRule, ProvenOn, TooWeak;
  }

  lemma AxesExact(record: Record, status: string, where_: Where)
    ensures AxisFindings(record, Some(status), Evidence(record), where_) == []
        <==> && (forall axis :: IsAxis(axis) ==> HonestAxis(record, axis))
             && (status == "covered" ==> AsList(Get(record, "positive")) != [] || AsList(Get(record, "negative")) != [])
  {
    var rule := AxisRule(record, Evidence(record), where_);
    AxisListExact(AXES, record, where_);
    AxisWords();
    hide Collect, HonestAxis, AxisRule, AXES, IsAxis, HasRule;
  }

  lemma AxisListExact(axes: seq<string>, record: Record, where_: Where)
    ensures Collect(axes, AxisRule(record, Evidence(record), where_)) == []
        <==> forall axis :: axis in axes ==> HonestAxis(record, axis)
  {
    var rule := AxisRule(record, Evidence(record), where_);
    CollectEmpty(axes, rule);
    forall i | 0 <= i < |axes|
      ensures rule(axes[i]) == [] <==> HonestAxis(record, axes[i])
    {
      AxisExact(record, where_, axes[i]);
    }
    hide HonestAxis, AxisRule;
  }

  // ---- clauses

  lemma ClauseBodyExact(tree: FileTree, evidence: seq<Yaml>, clause: Record, where_: Where)
    ensures ClauseBodyFindings(tree, evidence, clause, where_) == []
        <==> && IsStatus(Get(clause, "status"))
             && var status, nodes := Get(clause, "status").s, AsList(Get(clause, "test_evidence"));
             var marker := Get(clause, "unfalsifiable");
             && (forall n :: n in nodes ==> RealTest(tree, n) && n in evidence)
             && Backs(nodes, status)
             && (marker.Null? || marker.Bool?)
             && (marker == Bool(true) ==> status == "uncovered")
  {
    var nodes := AsList(Get(clause, "test_evidence"));
    forall n | n in nodes
      ensures Resolves(tree, n) <==> RealTest(tree, n)
    {
      ResolvesExactly(tree, n);
    }
    ListExact(nodes, ClauseNodeRule(tree, evidence, where_), (n: Yaml) => Resolves(tree, n) && n in evidence);
    StatusWords();
    EvidenceWords();
    hide Collect, Resolves, RealTest, STATUSES, NEEDS_EVIDENCE, FORBIDS_EVIDENCE;
  }

  lemma ClauseExact(tree: FileTree, evidence: seq<Yaml>, clause: Yaml, seen: map<string, Where>, where_: Where)
    ensures ClauseFindings(tree, evidence, clause, seen, where_) == []
        <==> HonestClause(tree, evidence, clause) && NameOf(clause).value !in seen
  {
    if clause.Map? {
      var inner := ClauseWhere(clause.fields, seen, where_);
      ClauseBodyExact(tree, evidence, clause.fields, inner);
      hide ClauseBodyFindings, HasText, RealTest;
    }
  }

  /** What the loop finds in the k-th clause, given the clause ids seen before it. */
  function ClauseFindingsAt(tree: FileTree, evidence: seq<Yaml>, clauses: seq<Yaml>, seen: map<string, Where>,
                            where_: Where, k: nat): seq<Violation>
    requires k < |clauses|
  {
    ClauseFindings(tree, evidence, clauses[k], SeenClauses(seen, clauses[..k], where_), ClauseAt(where_, k))
  }

  lemma {:induction false} ClausesEmpty(tree: FileTree, evidence: seq<Yaml>, clauses: seq<Yaml>,
                                        seen: map<string, Where>, where_: Where)
    ensures ClausesFindings(tree, evidence, clauses, seen, where_) == []
        <==> forall k :: 0 <= k < |clauses| ==> ClauseFindingsAt(tree, evidence, clauses, seen, where_, k) == []
  {
    hide ClauseFindings, SeenClauses;
    if clauses != [] {
      var last := |clauses| - 1;
      var init := clauses[..last];
      ClausesEmpty(tree, evidence, init, seen, where_);
      assert forall k :: 0 <= k < last ==> init[k] == clauses[k] && init[..k] == clauses[..k];
      if ClausesFindings(tree, evidence, clauses, seen, where_) == [] {
        forall k | 0 <= k < |clauses|
          ensures ClauseFindingsAt(tree, evidence, clauses, seen, where_, k) == []
        {
          if k < last {
            assert ClauseFindingsAt(tree, evidence, init, seen, where_, k) == [];
          }
        }
      }
      if forall k :: 0 <= k < |clauses| ==> ClauseFindingsAt(tree, evidence, clauses, seen, where_, k) == [] {
        forall k | 0 <= k < |init|
          ensures ClauseFindingsAt(tree, evidence, init, seen, where_, k) == []
        {
          assert ClauseFindingsAt(tree, evidence, clauses, seen, where_, k) == [];
        }
        assert ClauseFindingsAt(tree, evidence, clauses, seen, where_, last) == [];
      }
    }
  }

  /** No clause of the list repeats a clause id seen before it. */
  ghost predicate NewNames(clauses: seq<Yaml>, seen: map<string, Where>, where_: Where)
  {
    forall k :: 0 <= k < |clauses| ==> NameOf(clauses[k]).Some? ==>
      NameOf(clauses[k]).value !in SeenClauses(seen, clauses[..k], where_)
  }

  lemma ClausesExact(tree: FileTree, evidence: seq<Yaml>, clauses: seq<Yaml>, seen: map<string, Where>, where_: Where)
    ensures ClausesFindings(tree, evidence, clauses, seen, where_) == []
        <==> (forall c :: c in clauses ==> HonestClause(tree, evidence, c)) && NewNames(clauses, seen, where_)
  {
    ClausesEmpty(tree, evidence, clauses, seen, where_);
    hide ClausesFindings, ClauseFindings, HonestClause, SeenClauses, NameOf;
    forall k | 0 <= k < |clauses|
      ensures ClauseFindingsAt(tree, evidence, clauses, seen, where_, k) == []
          <==> && HonestClause(tree, evidence, clauses[k])
               && NameOf(clauses[k]).Some?
               && NameOf(clauses[k]).value !in SeenClauses(seen, clauses[..k], where_)
      ensures HonestClause(tree, evidence, clauses[k]) ==> NameOf(clauses[k]).Some?
    {
      ClauseExact(tree, evidence, clauses[k], SeenClauses(seen, clauses[..k], where_), ClauseAt(where_, k));
      HonestClauseNamed(tree, evidence, clauses[k]);
    }
  }

  lemma HonestClauseNamed(tree: FileTree, evidence: seq<Yaml>, clause: Yaml)
    ensures HonestClause(tree, evidence, clause) ==>
              && NameOf(clause).Some? && clause.Map?
              && IsStatus(Get(clause.fields, "status"))
              && StatusOf(clause.fields) == Some(Get(clause.fields, "status").s)
  {
    StatusWords();
    hide STATUSES;
  }

  lemma {:induction false} StatusesOfHonest(tree: FileTree, evidence: seq<Yaml>, clauses: seq<Yaml>)
    requires forall c :: c in clauses ==> HonestClause(tree, evidence, c)
    ensures |ClauseStatuses(clauses)| == |clauses|
    ensures forall k :: 0 <= k < |clauses| ==>
              clauses[k].Map? && Get(clauses[k].fields, "status") == Str(ClauseStatuses(clauses)[k])
  {
    hide HonestClause, STATUSES;
    if clauses != [] {
      var last := clauses[|clauses| - 1];
      StatusesOfHonest(tree, evidence, clauses[..|clauses| - 1]);
      HonestClauseNamed(tree, evidence, last);
      hide StatusOf;
    }
  }

  lemma PartOfEvidence(nodes: seq<Yaml>, evidence: seq<Yaml>)
    ensures nodes != [] && (forall n :: n in nodes ==> n in evidence) ==> evidence != []
  {
    if nodes != [] {
      assert nodes[0] in nodes;
    }
  }

  lemma CoveredStatuses(clauses: seq<Yaml>, statuses: seq<string>)
    requires |statuses| == |clauses|
    requires forall k :: 0 <= k < |clauses| ==> clauses[k].Map? && Get(clauses[k].fields, "status") == Str(statuses[k])
    ensures AllCovered(clauses) <==> forall c :: c in statuses ==> c == "covered"
  {
    hide Get;
    if AllCovered(clauses) {
      forall k | 0 <= k < |statuses|
        ensures statuses[k] == "covered"
      {
        assert clauses[k] in clauses;
      }
    }
    if forall c :: c in statuses ==> c == "covered" {
      forall k | 0 <= k < |clauses|
        ensures Get(clauses[k].fields, "status") == Str("covered")
      {
        assert statuses[k] in statuses;
      }
    }
  }

  /**
   The rule against out-claiming from below never fires alone: under a status that denies evidence
   the criterion cites none, an honest clause cites a part of that, and a proven clause would need
   to cite something.
   */
  lemma DeniedCriterionHasNoProvenClause(tree: FileTree, evidence: seq<Yaml>, status: string, clause: Yaml)
    requires Unproven(status) && Backs(evidence, status) && HonestClause(tree, evidence, clause)
    ensures !Proven(Get(clause.fields, "status").s)
  {
    PartOfEvidence(AsList(Get(clause.fields, "test_evidence")), evidence);
    hide RealTest;
  }

  lemma ClaimExact(tree: FileTree, evidence: seq<Yaml>, status: string, clauses: seq<Yaml>, where_: Where)
    requires IsStatus(Str(status)) && Backs(evidence, status) && clauses != []
    requires forall c :: c in clauses ==> HonestClause(tree, evidence, c)
    ensures ClaimFindings(Some(status), ClauseStatuses(clauses), where_) == []
        <==> (status == "covered" ==> AllCovered(clauses))
  {
    hide HonestClause, ClauseStatuses, AllCovered, Get;
    StatusesOfHonest(tree, evidence, clauses);
    CoveredStatuses(clauses, ClauseStatuses(clauses));
    var statuses := ClauseStatuses(clauses);
    forall k | 0 <= k < |clauses| && Unproven(status)
      ensures statuses[k] !in NEEDS_EVIDENCE
    {
      DeniedCriterionHasNoProvenClause(tree, evidence, status, clauses[k]);
    }
  }

  // ---- ids

  function Names(vs: seq<Yaml>): set<string>
  {
    set i | 0 <= i < |vs| && NameOf(vs[i]).Some? :: NameOf(vs[i]).value
  }

  lemma NamesOfConcat(a: seq<Yaml>, b: seq<Yaml>)
    ensures Names(a + b) == Names(a) + Names(b)
  {
    hide NameOf;
    var ab := a + b;
    forall id
      ensures id in Names(ab) <==> id in Names(a) || id in Names(b)
    {
      if id in Names(a) {
        var i :| 0 <= i < |a| && NameOf(a[i]) == Some(id);
        assert ab[i] == a[i];
      }
      if id in Names(b) {
        var i :| 0 <= i < |b| && NameOf(b[i]) == Some(id);
        assert ab[|a| + i] == b[i];
      }
      if id in Names(ab) {
        var i :| 0 <= i < |ab| && NameOf(ab[i]) == Some(id);
        assert ab[i] == if i < |a| then a[i] else b[i - |a|];
      }
    }
  }

  lemma NamesOfOne(v: Yaml)
    ensures Names([v]) == if NameOf(v).Some? then {NameOf(v).value} else {}
  {
    hide NameOf;
    assert NameOf(v).Some? ==> NameOf([v][0]).value in Names([v]);
  }

  lemma {:induction false} SeenClausesKeys(seen: map<string, Where>, clauses: seq<Yaml>, where_: Where)
    ensures SeenClauses(seen, clauses, where_).Keys == seen.Keys + Names(clauses)
  {
    if clauses != [] {
      var init, last := clauses[..|clauses| - 1], clauses[|clauses| - 1];
      SeenClausesKeys(seen, init, where_);
      assert clauses == init + [last];
      NamesOfConcat(init, [last]);
      NamesOfOne(last);
      hide Names, NonEmptyStr, Get;
    }
  }

  lemma {:induction false} SeenIdsKeys(criteria: seq<Yaml>)
    ensures SeenIds(criteria).Keys == Names(criteria)
  {
    if criteria != [] {
      var init, last := criteria[..|criteria| - 1], criteria[|criteria| - 1];
      SeenIdsKeys(init);
      assert criteria == init + [last];
      NamesOfConcat(init, [last]);
      NamesOfOne(last);
      hide Names, NonEmptyStr, Get;
    }
  }

  lemma {:induction false} SeenClauseIdsKeys(criteria: seq<Yaml>)
    ensures SeenClauseIds(criteria).Keys == Names(AllClauses(criteria))
  {
    if criteria != [] {
      var init, last := criteria[..|criteria| - 1], criteria[|criteria| - 1];
      SeenClauseIdsKeys(init);
      if last.Map? && HasClauses(last.fields) {
        var clauses := Get(last.fields, "clauses").items;
        NamesOfConcat(AllClauses(init), clauses);
        SeenClausesKeys(SeenClauseIds(init), clauses, CriterionWhere(last.fields, |init|));
      } else {
        assert AllClauses(criteria) == AllClauses(init);
      }
      hide Names, SeenClauses, HasClauses;
    }
  }

  /** Appending one element keeps the names distinct exactly when its name is new. */
  lemma DistinctNext(vs: seq<Yaml>, v: Yaml)
    ensures DistinctNames(vs + [v]) <==> DistinctNames(vs) && (NameOf(v).None? || NameOf(v).value !in Names(vs))
  {
    hide NameOf;
    var all := vs + [v];
    assert forall i :: 0 <= i < |vs| ==> all[i] == vs[i];
    assert all[|vs|] == v;
    if DistinctNames(all) {
      forall i, j | 0 <= i < j < |vs|
        ensures NameOf(vs[i]).None? || NameOf(vs[i]) != NameOf(vs[j])
      {
        assert all[i] == vs[i] && all[j] == vs[j];
      }
      forall i | 0 <= i < |vs| && NameOf(v).Some?
        ensures NameOf(vs[i]) != NameOf(v)
      {
        assert all[i] == vs[i] && all[|vs|] == v;
      }
    }
    if DistinctNames(vs) && (NameOf(v).None? || NameOf(v).value !in Names(vs)) {
      forall i, j | 0 <= i < j < |all|
        ensures NameOf(all[i]).None? || NameOf(all[i]) != NameOf(all[j])
      {
        if j == |vs| && NameOf(vs[i]).Some? {
          assert NameOf(vs[i]).value in Names(vs);
        }
      }
    }
  }

  lemma {:induction false} DistinctAppended(vs: seq<Yaml>, clauses: seq<Yaml>, seen: map<string, Where>, where_: Where)
    requires seen.Keys == Names(vs)
    ensures DistinctNames(vs + clauses) <==> DistinctNames(vs) && NewNames(clauses, seen, where_)
  {
    hide NameOf, Names, SeenClauses, DistinctNames;
    if clauses == [] {
      assert vs + clauses == vs;
    } else {
      var last := |clauses| - 1;
      var init := clauses[..last];
      DistinctAppended(vs, init, seen, where_);
      assert vs + clauses == vs + init + [clauses[last]];
      DistinctNext(vs + init, clauses[last]);
      NamesOfConcat(vs, init);
      SeenClausesKeys(seen, init, where_);
      NewNamesNext(clauses, seen, where_);
    }
  }

  lemma NewNamesNext(clauses: seq<Yaml>, seen: map<string, Where>, where_: Where)
    requires clauses != []
    ensures var init, last := clauses[..|clauses| - 1], clauses[|clauses| - 1];
            NewNames(clauses, seen, where_) <==>
            && NewNames(init, seen, where_)
            && (NameOf(last).Some? ==> NameOf(last).value !in SeenClauses(seen, init, where_))
  {
    hide NameOf, SeenClauses;
    var last := |clauses| - 1;
    var init := clauses[..last];
    assert forall k :: 0 <= k < last ==> init[k] == clauses[k] && init[..k] == clauses[..k];
    if NewNames(clauses, seen, where_) {
      forall k | 0 <= k < |init| && NameOf(init[k]).Some?
        ensures NameOf(init[k]).value !in SeenClauses(seen, init[..k], where_)
      {
        assert NameOf(clauses[k]).Some?;
      }
      assert NameOf(clauses[last]).Some? ==> NameOf(clauses[last]).value !in SeenClauses(seen, clauses[..last], where_);
    }
    if NewNames(init, seen, where_)
       && (NameOf(clauses[last]).Some? ==> NameOf(clauses[last]).value !in SeenClauses(seen, init, where_)) {
      forall k | 0 <= k < |clauses| && NameOf(clauses[k]).Some?
        ensures NameOf(clauses[k]).value !in SeenClauses(seen, clauses[..k], where_)
      {
        if k < last {
          assert NameOf(init[k]).Some?;
        }
      }
    }
  }

  // ---- records, documents

  lemma ClausePartExact(tree: FileTree, record: Record, seen: map<string, Where>, where_: Where)
    requires IsStatus(Get(record, "status")) && Backs(Evidence(record), Get(record, "status").s)
    ensures ClausePartFindings(tree, record, Evidence(record), seen, where_) == []
        <==> HonestClauses(tree, record) && NewNames(Get(record, "clauses").items, seen, where_)
  {
    hide HonestClause, ClausesFindings, ClaimFindings, ClauseStatuses, AllCovered, NewNames;
    if HasClauses(record) {
      var clauses := Get(record, "clauses").items;
      ClausesExact(tree, Evidence(record), clauses, seen, where_);
      if forall c :: c in clauses ==> HonestClause(tree, Evidence(record), c) {
        ClaimExact(tree, Evidence(record), Get(record, "status").s, clauses, where_);
      }
    }
  }

  /** No rule finds anything in the record. */
  predicate NothingFound(tree: FileTree, record: Record, ids: map<string, nat>, clauses: map<string, Where>, w: Where)
  {
    && NonEmptyStr(Get(record, "id")) && Get(record, "id").s !in ids
    && Collect(REQUIRED_FIELDS, FieldRule(record, w)) == [] && HeaderFindings(tree, record, w) == []
    && EvidenceFindings(tree, StatusOf(record), Evidence(record), EvidenceTypes(record), w) == []
    && AxisFindings(record, StatusOf(record), Evidence(record), w) == []
    && ClausePartFindings(tree, record, Evidence(record), clauses, w) == []
  }

  lemma RecordParts(tree: FileTree, record: Record, position: nat, ids: map<string, nat>, clauses: map<string, Where>)
    ensures RecordFindings(tree, Map(record), position, ids, clauses) == []
        <==> NothingFound(tree, record, ids, clauses, CriterionWhere(record, position))
  {
    hide Collect, HeaderFindings, EvidenceFindings, AxisFindings, ClausePartFindings, StatusOf, NonEmptyStr,
      CriterionWhere, Evidence, EvidenceTypes;
  }

  lemma ProofExact(tree: FileTree, record: Record, where_: Where)
    requires IsStatus(Get(record, "status"))
    ensures && EvidenceFindings(tree, StatusOf(record), Evidence(record), EvidenceTypes(record), where_) == []
            && AxisFindings(record, StatusOf(record), Evidence(record), where_) == []
        <==> HonestProof(tree, record)
  {
    var status := Get(record, "status").s;
    EvidenceExact(tree, status, Evidence(record), EvidenceTypes(record), where_);
    AxesExact(record, status, where_);
    hide EvidenceFindings, AxisFindings, HonestTypes, HonestAxis, RealTest, Backs;
  }

  lemma RecordExact(tree: FileTree, record: Yaml, position: nat, ids: map<string, nat>, clauses: map<string, Where>)
    ensures RecordFindings(tree, record, position, ids, clauses) == []
        <==> && HonestRecord(tree, record)
             && NameOf(record).value !in ids
             && NewNames(Get(record.fields, "clauses").items, clauses, CriterionWhere(record.fields, position))
  {
    hide RecordFindings, Collect, HeaderFindings, EvidenceFindings, AxisFindings, ClausePartFindings, HonestClauses,
      HonestProof, HonestHeader, NewNames, CriterionWhere, StatusOf, Evidence, EvidenceTypes, Backs;
    if !record.Map? {
      assert RecordFindings(tree, record, position, ids, clauses) != [] by {
        NotHonest(tree, record, position, ids, clauses);
      }
    } else {
      var r, w := record.fields, CriterionWhere(record.fields, position);
      RecordParts(tree, r, position, ids, clauses);
      HeaderExact(tree, r, w);
      if HonestHeader(tree, r) {
        HeaderStatus(tree, r);
        ProofExact(tree, r, w);
        if HonestProof(tree, r) {
          ProofBacks(tree, r);
          ClausePartExact(tree, r, clauses, w);
        }
      }
    }
  }

  lemma NotHonest(tree: FileTree, record: Yaml, position: nat, ids: map<string, nat>, clauses: map<string, Where>)
    requires !record.Map?
    ensures RecordFindings(tree, record, position, ids, clauses) != []
  {
  }

  lemma HeaderStatus(tree: FileTree, record: Record)
    requires HonestHeader(tree, record)
    ensures IsStatus(Get(record, "status")) && NameOf(Map(record)).Some?
  {
  }

  lemma ProofBacks(tree: FileTree, record: Record)
    requires IsStatus(Get(record, "status")) && HonestProof(tree, record)
    ensures Backs(Evidence(record), Get(record, "status").s)
    ensures !EvidenceRaises(Evidence(record), EvidenceTypes(record))
  {
    HonestTypesNeverRaise(Evidence(record), EvidenceTypes(record));
  }

  /** What every honest record offers its readers. */
  lemma HonestRecordFacts(tree: FileTree, record: Yaml)
    requires HonestRecord(tree, record)
    ensures NameOf(record).Some? && HasClauses(record.fields) && !RecordRaises(record)
  {
    ProofBacks(tree, record.fields);
    hide HonestProof, EvidenceRaises;
  }

  lemma {:induction false} CriteriaExact(tree: FileTree, criteria: seq<Yaml>)
    ensures CriteriaFindings(tree, criteria) == []
        <==> && (forall record :: record in criteria ==> HonestRecord(tree, record))
             && DistinctNames(criteria)
             && DistinctNames(AllClauses(criteria))
  {
    hide RecordFindings, HonestRecord, DistinctNames, NewNames, NameOf, Names, SeenIds, SeenClauseIds;
    if criteria == [] {
      NothingRepeats();
    } else {
      var n := |criteria| - 1;
      var init, last := criteria[..n], criteria[n];
      assert criteria == init + [last];
      CriteriaExact(tree, init);
      SeenIdsKeys(init);
      SeenClauseIdsKeys(init);
      DistinctNext(init, last);
      RecordExact(tree, last, n, SeenIds(init), SeenClauseIds(init));
      if HonestRecord(tree, last) {
        HonestRecordFacts(tree, last);
        HonestIsMap(tree, last);
        var clauses := Get(last.fields, "clauses").items;
        DistinctAppended(AllClauses(init), clauses, SeenClauseIds(init), CriterionWhere(last.fields, n));
        assert AllClauses(criteria) == AllClauses(init) + clauses;
      }
    }
  }

  lemma HonestIsMap(tree: FileTree, record: Yaml)
    requires HonestRecord(tree, record)
    ensures record.Map?
  {
  }

  lemma NothingRepeats()
    ensures DistinctNames([])
  {
  }

  /** The gate is exact: a document is accepted if and only if the map does not lie about itself. */
  lemma AcceptedExactly(tree: FileTree, document: Yaml)
    ensures Accepted(tree, document) <==> Honest(tree, document)
  {
    hide CriteriaFindings, HonestRecord, DistinctNames, RecordRaises;
    if HasCriteria(document) {
      var criteria := Criteria(document);
      CriteriaExact(tree, criteria);
      if Honest(tree, document) {
        forall record | record in criteria
          ensures !RecordRaises(record)
        {
          HonestRecordFacts(tree, record);
        }
      }
    }
  }
}
