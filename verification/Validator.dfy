/**
 The vocabulary of the acceptance map (docs/audit/acceptance_semantic_scan.py:88-208) and what a
 violation names. Message texts are left out; the code and the place of a violation are kept.
 */
module Vocabulary {
  import opened Text
  import opened Yaml

  const STATUSES: seq<string> :=
    ["covered", "partial", "uncovered", "deliberate_future_dev", "not_applicable", "product_decision_required"]
  const NEEDS_EVIDENCE: seq<string> := ["covered", "partial"]
  const FORBIDS_EVIDENCE: seq<string> := ["uncovered", "not_applicable", "product_decision_required"]
  const NEEDS_NOTES: seq<string> :=
    ["partial", "uncovered", "deliberate_future_dev", "not_applicable", "product_decision_required"]
  const DEBT_CLASSES: seq<string> := ["A", "B", "C", "D"]
  const NEEDS_DEBT_CLASS: seq<string> := ["partial", "uncovered"]

  const EVIDENCE_TYPES: seq<string> :=
    ["backend_unit", "backend_integration", "backend_contract", "backend_deterministic", "backend_acceptance",
     "frontend_component", "e2e"]

  const BACKEND_ROOT: string := "backend/tests/"
  const INTEGRATION_ROOT: string := "backend/tests/integration/"
  const CONTRACT_ROOT: string := "backend/tests/contract/"

  /** `EVIDENCE_TYPE_ROOTS`: where the nodes of an evidence type live. */
  function RootOf(etype: string): string
    requires etype in EVIDENCE_TYPES
  {
    match etype
    case "backend_unit" => "backend/tests/unit/"
    case "backend_integration" => INTEGRATION_ROOT
    case "backend_contract" => CONTRACT_ROOT
    case "backend_deterministic" => "backend/tests/deterministic/"
    case "backend_acceptance" => "backend/tests/acceptance/"
    case "frontend_component" => "frontend/src/"
    case _ => "frontend/e2e/"
  }

  const AXES: seq<string> :=
    ["positive", "negative", "auth", "occ", "idempotency", "async_recovery", "historical_integrity", "agent_parity"]

  predicate HasRule(axis: string)
  {
    axis in AXES && axis != "positive" && axis != "negative"
  }

  /** `AXIS_RULES`: whether a file can prove a claim on a server-truth axis. */
  predicate ProvesAxis(axis: string, path: string)
  {
    if axis == "async_recovery" then StartsWith(path, INTEGRATION_ROOT) || StartsWith(path, CONTRACT_ROOT)
    else StartsWith(path, BACKEND_ROOT)
  }

  const REQUIRED_FIELDS: seq<string> :=
    ["id", "document", "section", "summary", "clauses", "production_paths", "test_evidence", "evidence_type",
     "status", "notes"]

  predicate IsOneOf(v: Yaml, names: seq<string>)
  {
    v.Str? && v.s in names
  }

  predicate NonEmptyStr(v: Yaml)
  {
    v.Str? && v.s != ""
  }

  predicate Argued(v: Yaml)
  {
    v.Str? && Strip(v.s) != ""
  }

  datatype Code =
    | BadRoot | BadRecord | DuplicateId | MissingField | UnknownStatus | UnknownDocument | DebtClassRequired
    | DebtClassNotAllowed | NotesRequired | UnresolvedNode | UnknownEvidenceType | EvidenceTypeMismatch
    | EmptyEvidence | EvidenceOnEmptyStatus | AxisNotInEvidence | AxisEvidenceTooWeak | PositiveNegativeMissing
    | NoClauses | BadClause | DuplicateClauseId | BadUnfalsifiable | UnfalsifiableNotUncovered
    | StatusClauseMismatch

  datatype Where =
    | MapFile
    | Position(i: nat)
    | CriterionId(id: string)
    | ClauseAt(criterion: Where, c: nat)
    | ClauseId(id: string)

  datatype Violation = Violation(code: Code, where_: Where)

  /** `validate` either raises TypeError or returns its list of violations. */
  datatype Verdict = TypeError | Findings(violations: seq<Violation>)
}

/** Appending per-element findings, in order, as the validator's loops do. */
module Findings {
  import opened Vocabulary

  function Collect<T>(xs: seq<T>, f: T -> seq<Violation>): seq<Violation>
  {
    if xs == [] then [] else Collect(xs[..|xs| - 1], f) + f(xs[|xs| - 1])
  }

  function Unless(ok: bool, code: Code, where_: Where): seq<Violation>
  {
    if ok then [] else [Violation(code, where_)]
  }

  lemma CollectNext<T>(xs: seq<T>, i: nat, f: T -> seq<Violation>)
    requires i < |xs|
    ensures Collect(xs[..i + 1], f) == Collect(xs[..i], f) + f(xs[i])
  {
    assert xs[..i + 1][..i] == xs[..i];
  }

  lemma CollectAll<T>(xs: seq<T>, f: T -> seq<Violation>)
    ensures Collect(xs[..|xs|], f) == Collect(xs, f)
  {
    assert xs[..|xs|] == xs;
  }

  lemma {:induction false} CollectEmpty<T>(xs: seq<T>, f: T -> seq<Violation>)
    ensures Collect(xs, f) == [] <==> forall i :: 0 <= i < |xs| ==> f(xs[i]) == []
  {
    if xs != [] {
      var init := xs[..|xs| - 1];
      CollectEmpty(init, f);
      assert forall i :: 0 <= i < |init| ==> init[i] == xs[i];
    }
  }

  lemma {:induction false} CollectMember<T>(xs: seq<T>, f: T -> seq<Violation>, v: Violation)
    ensures v in Collect(xs, f) <==> exists i :: 0 <= i < |xs| && v in f(xs[i])
  {
    if xs != [] {
      var init := xs[..|xs| - 1];
      CollectMember(init, f, v);
      assert forall i :: 0 <= i < |init| ==> init[i] == xs[i];
      if v in Collect(init, f) {
        var i :| 0 <= i < |init| && v in f(init[i]);
        assert v in f(xs[i]);
      }
      if i :| 0 <= i < |xs| && v in f(xs[i]) {
        assert i < |init| ==> v in f(init[i]);
      }
    }
  }
}

/**
 `validate` (docs/audit/acceptance_semantic_scan.py:373-689), rule by rule: each function lists the
 violations one rule appends, in the order the loop appends them.
 */
module Rules {
  import opened Wrappers
  import opened Text
  import opened Yaml
  import opened TestNodes
  import opened Vocabulary
  import opened Findings

  type Record = map<string, Yaml>

  function CriterionWhere(record: Record, position: nat): Where
  {
    if NonEmptyStr(Get(record, "id")) then CriterionId(Get(record, "id").s) else Position(position)
  }

  function IdFindings(record: Record, position: nat, seen: map<string, nat>): seq<Violation>
  {
    var id := Get(record, "id");
    if NonEmptyStr(id) then Unless(id.s !in seen, DuplicateId, CriterionId(id.s))
    else [Violation(MissingField, Position(position))]
  }

  function FieldRule(record: Record, where_: Where): string -> seq<Violation>
  {
    (name: string) => Unless(name in record, MissingField, where_)
  }

  /** The record's status, None when it is not in the vocabulary. */
  function StatusOf(record: Record): Option<string>
  {
    if IsOneOf(Get(record, "status"), STATUSES) then Some(Get(record, "status").s) else None
  }

  predicate StatusIn(status: Option<string>, names: seq<string>)
  {
    status.Some? && status.value in names
  }

  function HeaderFindings(tree: FileTree, record: Record, where_: Where): seq<Violation>
  {
    var status, doc, debt := StatusOf(record), Get(record, "document"), Get(record, "debt_class");
    Unless(status.Some?, UnknownStatus, where_)
    + Unless(doc.Str? ==> doc.s in tree, UnknownDocument, where_)
    + (if StatusIn(status, NEEDS_DEBT_CLASS) then Unless(IsOneOf(debt, DEBT_CLASSES), DebtClassRequired, where_)
       else Unless(debt.Null?, DebtClassNotAllowed, where_))
    + Unless(StatusIn(status, NEEDS_NOTES) ==> Argued(Get(record, "notes")), NotesRequired, where_)
  }

  // ---- evidence

  function UnresolvedRule(tree: FileTree, where_: Where): Yaml -> seq<Violation>
  {
    (node: Yaml) => Unless(Resolves(tree, node), UnresolvedNode, where_)
  }

  function UnknownTypeRule(where_: Where): Yaml -> seq<Violation>
  {
    (etype: Yaml) => Unless(IsOneOf(etype, EVIDENCE_TYPES), UnknownEvidenceType, where_)
  }

  /** The node lives under the root of this evidence type. */
  predicate LivesUnder(node: Yaml, etype: Yaml)
  {
    IsOneOf(etype, EVIDENCE_TYPES) && NodePath(node) != "" && StartsWith(NodePath(node), RootOf(etype.s))
  }

  predicate Explained(node: Yaml, etypes: seq<Yaml>)
  {
    exists t :: t in etypes && LivesUnder(node, t)
  }

  predicate Used(etype: Yaml, nodes: seq<Yaml>)
  {
    exists n :: n in nodes && LivesUnder(n, etype)
  }

  function UnexplainedRule(etypes: seq<Yaml>, where_: Where): Yaml -> seq<Violation>
  {
    (node: Yaml) => Unless(Explained(node, etypes), EvidenceTypeMismatch, where_)
  }

  function UnusedRule(nodes: seq<Yaml>, where_: Where): Yaml -> seq<Violation>
  {
    (etype: Yaml) => Unless(IsOneOf(etype, EVIDENCE_TYPES) ==> Used(etype, nodes), EvidenceTypeMismatch, where_)
  }

  /**
   Where the type checks raise: an entry that cannot be hashed, or a node no type explains when the
   list of types, joined into the message, holds something other than strings.
   */
  predicate EvidenceRaises(nodes: seq<Yaml>, etypes: seq<Yaml>)
  {
    || (exists t :: t in etypes && !Hashable(t))
    || (!AllStr(etypes) && exists n :: n in nodes && !Explained(n, etypes))
  }

  function EvidenceFindings(tree: FileTree, status: Option<string>, nodes: seq<Yaml>, etypes: seq<Yaml>, where_: Where)
    : seq<Violation>
  {
    Collect(nodes, UnresolvedRule(tree, where_))
    + Collect(etypes, UnknownTypeRule(where_))
    + Collect(nodes, UnexplainedRule(etypes, where_))
    + Collect(etypes, UnusedRule(nodes, where_))
    + Unless(StatusIn(status, NEEDS_EVIDENCE) ==> nodes != [], EmptyEvidence, where_)
    + Unless(StatusIn(status, FORBIDS_EVIDENCE) ==> nodes == [], EvidenceOnEmptyStatus, where_)
  }

  // ---- axes

  function CitedRule(evidence: seq<Yaml>, where_: Where): Yaml -> seq<Violation>
  {
    (node: Yaml) =>
      if !node.Str? then [Violation(UnresolvedNode, where_)]
      else Unless(node in evidence, AxisNotInEvidence, where_)
  }

  predicate ProvenOn(axis: string, nodes: seq<Yaml>)
  {
    exists n :: n in nodes && NodePath(n) != "" && ProvesAxis(axis, NodePath(n))
  }

  function AxisRule(record: Record, evidence: seq<Yaml>, where_: Where): string -> seq<Violation>
  {
    (axis: string) =>
      var nodes := AsList(Get(record, axis));
      Collect(nodes, CitedRule(evidence, where_))
      + Unless(nodes == [] || !HasRule(axis) || ProvenOn(axis, nodes), AxisEvidenceTooWeak, where_)
  }

  function AxisFindings(record: Record, status: Option<string>, evidence: seq<Yaml>, where_: Where): seq<Violation>
  {
    Collect(AXES, AxisRule(record, evidence, where_))
    + Unless(status == Some("covered") ==>
               AsList(Get(record, "positive")) != [] || AsList(Get(record, "negative")) != [],
             PositiveNegativeMissing, where_)
  }

  // ---- clauses

  /** `str(clause.get("text", "")).strip()` is non-empty: only a missing or blank string text fails. */
  predicate HasText(clause: Record)
  {
    "text" in clause && (clause["text"].Str? ==> Strip(clause["text"].s) != "")
  }

  function ClauseName(clause: Record): Option<string>
  {
    if NonEmptyStr(Get(clause, "id")) then Some(Get(clause, "id").s) else None
  }

  function ClauseIdFindings(clause: Record, seen: map<string, Where>, where_: Where): seq<Violation>
  {
    match ClauseName(clause)
    case None => [Violation(MissingField, where_)]
    case Some(id) => Unless(id !in seen, DuplicateClauseId, where_)
  }

  function ClauseWhere(clause: Record, seen: map<string, Where>, where_: Where): Where
  {
    match ClauseName(clause)
    case None => where_
    case Some(id) => if id in seen then where_ else ClauseId(id)
  }

  function ClauseNodeRule(tree: FileTree, evidence: seq<Yaml>, where_: Where): Yaml -> seq<Violation>
  {
    (node: Yaml) =>
      if !Resolves(tree, node) then [Violation(UnresolvedNode, where_)]
      else Unless(node in evidence, AxisNotInEvidence, where_)
  }

  function MarkerFindings(marker: Yaml, status: string, where_: Where): seq<Violation>
  {
    if marker.Null? then []
    else if !marker.Bool? then [Violation(BadUnfalsifiable, where_)]
    else Unless(marker.b ==> status == "uncovered", UnfalsifiableNotUncovered, where_)
  }

  function ClauseBodyFindings(tree: FileTree, evidence: seq<Yaml>, clause: Record, where_: Where): seq<Violation>
  {
    match StatusOf(clause)
    case None => [Violation(UnknownStatus, where_)]
    case Some(status) =>
      var nodes := AsList(Get(clause, "test_evidence"));
      Collect(nodes, ClauseNodeRule(tree, evidence, where_))
      + Unless(status in NEEDS_EVIDENCE ==> nodes != [], EmptyEvidence, where_)
      + Unless(status in FORBIDS_EVIDENCE ==> nodes == [], EvidenceOnEmptyStatus, where_)
      + MarkerFindings(Get(clause, "unfalsifiable"), status, where_)
  }

  function ClauseFindings(tree: FileTree, evidence: seq<Yaml>, clause: Yaml, seen: map<string, Where>, where_: Where)
    : seq<Violation>
  {
    if !clause.Map? then [Violation(BadClause, where_)]
    else
      var inner := ClauseWhere(clause.fields, seen, where_);
      ClauseIdFindings(clause.fields, seen, where_)
      + Unless(HasText(clause.fields), MissingField, inner)
      + ClauseBodyFindings(tree, evidence, clause.fields, inner)
  }

  /** `seen_clause_ids` once these clauses of the criterion at `where_` are read. */
  function SeenClauses(seen: map<string, Where>, clauses: seq<Yaml>, where_: Where): map<string, Where>
  {
    if clauses == [] then seen
    else
      var before := SeenClauses(seen, clauses[..|clauses| - 1], where_);
      var clause := clauses[|clauses| - 1];
      if clause.Map? && ClauseName(clause.fields).Some? && ClauseName(clause.fields).value !in before
      then before[ClauseName(clause.fields).value := where_]
      else before
  }

  function ClausesFindings(tree: FileTree, evidence: seq<Yaml>, clauses: seq<Yaml>, seen: map<string, Where>,
                           where_: Where): seq<Violation>
  {
    if clauses == [] then []
    else
      var last := |clauses| - 1;
      ClausesFindings(tree, evidence, clauses[..last], seen, where_)
      + ClauseFindings(tree, evidence, clauses[last], SeenClauses(seen, clauses[..last], where_), ClauseAt(where_, last))
  }

  /** The clause statuses that count: those of mappings whose status is in the vocabulary. */
  function ClauseStatuses(clauses: seq<Yaml>): seq<string>
  {
    if clauses == [] then []
    else
      var clause := clauses[|clauses| - 1];
      ClauseStatuses(clauses[..|clauses| - 1])
      + if clause.Map? && StatusOf(clause.fields).Some? then [StatusOf(clause.fields).value] else []
  }

  function Rank(status: string): int
  {
    if status == "covered" then 3 else if status == "partial" then 2 else 1
  }

  function ClaimFindings(status: Option<string>, statuses: seq<string>, where_: Where): seq<Violation>
  {
    if status.None? || statuses == [] then []
    else
      Unless(status.value == "covered" ==> forall c :: c in statuses ==> c == "covered", StatusClauseMismatch, where_)
      + Unless(Rank(status.value) < 2 && status.value != "deliberate_future_dev" ==>
                 forall c :: c in statuses ==> c !in NEEDS_EVIDENCE, StatusClauseMismatch, where_)
  }

  predicate HasClauses(record: Record)
  {
    Get(record, "clauses").List? && Get(record, "clauses").items != []
  }

  function ClausePartFindings(tree: FileTree, record: Record, evidence: seq<Yaml>, seen: map<string, Where>,
                              where_: Where): seq<Violation>
  {
    if !HasClauses(record) then [Violation(NoClauses, where_)]
    else
      var clauses := Get(record, "clauses").items;
      ClausesFindings(tree, evidence, clauses, seen, where_)
      + ClaimFindings(StatusOf(record), ClauseStatuses(clauses), where_)
  }

  // ---- records and the document

  function Evidence(record: Record): seq<Yaml> { AsList(Get(record, "test_evidence")) }

  function EvidenceTypes(record: Record): seq<Yaml> { AsList(Get(record, "evidence_type")) }

  predicate RecordRaises(record: Yaml)
  {
    record.Map? && EvidenceRaises(Evidence(record.fields), EvidenceTypes(record.fields))
  }

  function RecordFindings(tree: FileTree, record: Yaml, position: nat, ids: map<string, nat>,
                          clauses: map<string, Where>): seq<Violation>
  {
    if !record.Map? then [Violation(BadRecord, Position(position))]
    else
      var r, w := record.fields, CriterionWhere(record.fields, position);
      IdFindings(r, position, ids)
      + Collect(REQUIRED_FIELDS, FieldRule(r, w))
      + HeaderFindings(tree, r, w)
      + EvidenceFindings(tree, StatusOf(r), Evidence(r), EvidenceTypes(r), w)
      + AxisFindings(r, StatusOf(r), Evidence(r), w)
      + ClausePartFindings(tree, r, Evidence(r), clauses, w)
  }

  /** `seen_ids` after the given criteria: every id with the position of its first use. */
  function SeenIds(criteria: seq<Yaml>): map<string, nat>
  {
    if criteria == [] then map[]
    else
      var last := |criteria| - 1;
      var before := SeenIds(criteria[..last]);
      if criteria[last].Map? && NonEmptyStr(Get(criteria[last].fields, "id"))
         && Get(criteria[last].fields, "id").s !in before
      then before[Get(criteria[last].fields, "id").s := last]
      else before
  }

  /** `seen_clause_ids` after the given criteria. */
  function SeenClauseIds(criteria: seq<Yaml>): map<string, Where>
  {
    if criteria == [] then map[]
    else
      var last := |criteria| - 1;
      var before := SeenClauseIds(criteria[..last]);
      if criteria[last].Map? && HasClauses(criteria[last].fields)
      then SeenClauses(before, Get(criteria[last].fields, "clauses").items, CriterionWhere(criteria[last].fields, last))
      else before
  }

  function CriteriaFindings(tree: FileTree, criteria: seq<Yaml>): seq<Violation>
  {
    if criteria == [] then []
    else
      var last := |criteria| - 1;
      CriteriaFindings(tree, criteria[..last])
      + RecordFindings(tree, criteria[last], last, SeenIds(criteria[..last]), SeenClauseIds(criteria[..last]))
  }

  predicate CriteriaRaise(criteria: seq<Yaml>)
  {
    exists record :: record in criteria && RecordRaises(record)
  }

  predicate HasCriteria(document: Yaml)
  {
    document.Map? && Get(document.fields, "criteria").List? && Get(document.fields, "criteria").items != []
  }

  function Criteria(document: Yaml): seq<Yaml>
    requires HasCriteria(document)
  {
    Get(document.fields, "criteria").items
  }

  /** The verdict of `validate` as a value. */
  function VerdictOn(tree: FileTree, document: Yaml): Verdict
  {
    if !HasCriteria(document) then Findings([Violation(BadRoot, MapFile)])
    else if CriteriaRaise(Criteria(document)) then TypeError
    else Findings(CriteriaFindings(tree, Criteria(document)))
  }
}

/** The validator's loops over one document, with the index it consults and the two maps it fills. */
module Validator {
  import opened Wrappers
  import opened Yaml
  import opened TestNodes
  import opened TestIndex
  import opened Vocabulary
  import opened Findings
  import opened Rules

  /** Append one element's findings to what the loop over `xs` has collected so far. */
  lemma Appended<T>(xs: seq<T>, i: nat, rule: T -> seq<Violation>, out: seq<Violation>)
    requires i < |xs| && out == Collect(xs[..i], rule)
    ensures rule(xs[i]) == [] ==> out == Collect(xs[..i + 1], rule)
    ensures out + rule(xs[i]) == Collect(xs[..i + 1], rule)
    ensures i + 1 == |xs| ==> Collect(xs[..i + 1], rule) == Collect(xs, rule)
  {
    CollectNext(xs, i, rule);
    if i + 1 == |xs| {
      CollectAll(xs, rule);
    }
  }

  method CheckResolved(index: TestIndex, nodes: seq<Yaml>, where_: Where) returns (out: seq<Violation>)
    requires index.Valid()
    modifies index
    ensures index.Valid()
    ensures out == Collect(nodes, UnresolvedRule(index.tree, where_))
  {
    out := [];
    ghost var rule := UnresolvedRule(index.tree, where_);
    for i := 0 to |nodes|
      invariant index.Valid()
      invariant out == Collect(nodes[..i], rule)
    {
      Appended(nodes, i, rule, out);
      var reason := index.Resolve(nodes[i]);
      if reason.Some? {
        out := out + [Violation(UnresolvedNode, where_)];
      }
    }
    CollectAll(nodes, rule);
  }

  method CheckTypesKnown(etypes: seq<Yaml>, where_: Where) returns (verdict: Verdict)
    ensures verdict == if exists t :: t in etypes && !Hashable(t) then TypeError
                       else Findings(Collect(etypes, UnknownTypeRule(where_)))
  {
    var out: seq<Violation> := [];
    ghost var rule := UnknownTypeRule(where_);
    for i := 0 to |etypes|
      invariant out == Collect(etypes[..i], rule)
      invariant forall k :: 0 <= k < i ==> Hashable(etypes[k])
    {
      if !Hashable(etypes[i]) {
        return TypeError;
      }
      Appended(etypes, i, rule, out);
      if !IsOneOf(etypes[i], EVIDENCE_TYPES) {
        out := out + [Violation(UnknownEvidenceType, where_)];
      }
    }
    CollectAll(etypes, rule);
    verdict := Findings(out);
  }

  method CheckExplained(nodes: seq<Yaml>, etypes: seq<Yaml>, where_: Where) returns (verdict: Verdict)
    ensures verdict == if !AllStr(etypes) && (exists n :: n in nodes && !Explained(n, etypes)) then TypeError
                       else Findings(Collect(nodes, UnexplainedRule(etypes, where_)))
  {
    var out: seq<Violation> := [];
    ghost var rule := UnexplainedRule(etypes, where_);
    for i := 0 to |nodes|
      invariant out == Collect(nodes[..i], rule)
      invariant AllStr(etypes) || out == []
    {
      Appended(nodes, i, rule, out);
      if !Explained(nodes[i], etypes) {
        if !AllStr(etypes) {
          return TypeError;
        }
        out := out + [Violation(EvidenceTypeMismatch, where_)];
      }
    }
    CollectAll(nodes, rule);
    CollectEmpty(nodes, rule);
    verdict := Findings(out);
  }

  method CheckTypesUsed(nodes: seq<Yaml>, etypes: seq<Yaml>, where_: Where) returns (out: seq<Violation>)
    ensures out == Collect(etypes, UnusedRule(nodes, where_))
  {
    out := [];
    ghost var rule := UnusedRule(nodes, where_);
    for i := 0 to |etypes|
      invariant out == Collect(etypes[..i], rule)
    {
      Appended(etypes, i, rule, out);
      if !IsOneOf(etypes[i], EVIDENCE_TYPES) {
        continue;
      }
      if !Used(etypes[i], nodes) {
        out := out + [Violation(EvidenceTypeMismatch, where_)];
      }
    }
    CollectAll(etypes, rule);
  }

  method CheckEvidence(index: TestIndex, status: Option<string>, nodes: seq<Yaml>, etypes: seq<Yaml>, where_: Where)
    returns (verdict: Verdict)
    requires index.Valid()
    modifies index
    ensures index.Valid()
    ensures verdict == if EvidenceRaises(nodes, etypes) then TypeError
                       else Findings(EvidenceFindings(index.tree, status, nodes, etypes, where_))
  {
    var unresolved := CheckResolved(index, nodes, where_);
    var known := CheckTypesKnown(etypes, where_);
    if known.TypeError? {
      return TypeError;
    }
    var explained := CheckExplained(nodes, etypes, where_);
    if explained.TypeError? {
      return TypeError;
    }
    var unused := CheckTypesUsed(nodes, etypes, where_);
    var missing, forbidden: seq<Violation> := [], [];
    if StatusIn(status, NEEDS_EVIDENCE) && nodes == [] {
      missing := [Violation(EmptyEvidence, where_)];
    }
    if StatusIn(status, FORBIDS_EVIDENCE) && nodes != [] {
      forbidden := [Violation(EvidenceOnEmptyStatus, where_)];
    }
    verdict := Findings(unresolved + known.violations + explained.violations + unused + missing + forbidden);
  }

  method CheckCited(evidence: seq<Yaml>, nodes: seq<Yaml>, where_: Where) returns (out: seq<Violation>)
    ensures out == Collect(nodes, CitedRule(evidence, where_))
  {
    out := [];
    ghost var rule := CitedRule(evidence, where_);
    for i := 0 to |nodes|
      invariant out == Collect(nodes[..i], rule)
    {
      Appended(nodes, i, rule, out);
      if !nodes[i].Str? {
        out := out + [Violation(UnresolvedNode, where_)];
      } else if nodes[i] !in evidence {
        out := out + [Violation(AxisNotInEvidence, where_)];
      }
    }
    CollectAll(nodes, rule);
  }

  method CheckAxes(record: Record, status: Option<string>, evidence: seq<Yaml>, where_: Where)
    returns (out: seq<Violation>)
    ensures out == AxisFindings(record, status, evidence, where_)
  {
    out := [];
    var axes := AXES;
    ghost var rule := AxisRule(record, evidence, where_);
    for a := 0 to |axes|
      invariant out == Collect(axes[..a], rule)
    {
      Appended(axes, a, rule, out);
      var nodes := AsList(Get(record, axes[a]));
      var found := CheckCited(evidence, nodes, where_);
      if !(nodes == [] || !HasRule(axes[a])) && !ProvenOn(axes[a], nodes) {
        found := found + [Violation(AxisEvidenceTooWeak, where_)];
      }
      assert found == rule(axes[a]);
      out := out + found;
    }
    CollectAll(axes, rule);
    var missing: seq<Violation> := [];
    if status == Some("covered") && !(AsList(Get(record, "positive")) != [] || AsList(Get(record, "negative")) != []) {
      missing := [Violation(PositiveNegativeMissing, where_)];
    }
    out := out + missing;
  }

  method CheckClauseNodes(index: TestIndex, evidence: seq<Yaml>, nodes: seq<Yaml>, where_: Where)
    returns (out: seq<Violation>)
    requires index.Valid()
    modifies index
    ensures index.Valid()
    ensures out == Collect(nodes, ClauseNodeRule(index.tree, evidence, where_))
  {
    out := [];
    ghost var rule := ClauseNodeRule(index.tree, evidence, where_);
    for i := 0 to |nodes|
      invariant index.Valid()
      invariant out == Collect(nodes[..i], rule)
    {
      Appended(nodes, i, rule, out);
      var reason := index.Resolve(nodes[i]);
      if reason.Some? {
        out := out + [Violation(UnresolvedNode, where_)];
      } else if nodes[i] !in evidence {
        out := out + [Violation(AxisNotInEvidence, where_)];
      }
    }
    CollectAll(nodes, rule);
  }

  method CheckClauseBody(index: TestIndex, evidence: seq<Yaml>, clause: Record, where_: Where)
    returns (out: seq<Violation>, status: Option<string>)
    requires index.Valid()
    modifies index
    ensures index.Valid()
    ensures out == ClauseBodyFindings(index.tree, evidence, clause, where_) && status == StatusOf(clause)
  {
    status := StatusOf(clause);
    if status.None? {
      return [Violation(UnknownStatus, where_)], None;
    }
    var nodes := AsList(Get(clause, "test_evidence"));
    var cited := CheckClauseNodes(index, evidence, nodes, where_);
    var missing, forbidden, marked: seq<Violation> := [], [], [];
    if status.value in NEEDS_EVIDENCE && nodes == [] {
      missing := [Violation(EmptyEvidence, where_)];
    }
    if status.value in FORBIDS_EVIDENCE && nodes != [] {
      forbidden := [Violation(EvidenceOnEmptyStatus, where_)];
    }
    var marker := Get(clause, "unfalsifiable");
    if !marker.Null? {
      if !marker.Bool? {
        marked := [Violation(BadUnfalsifiable, where_)];
      } else if marker.b && status.value != "uncovered" {
        marked := [Violation(UnfalsifiableNotUncovered, where_)];
      }
    }
    out := cited + missing + forbidden + marked;
  }

  method CheckClause(index: TestIndex, evidence: seq<Yaml>, clause: Record, seen0: map<string, Where>,
                     at: Where, criterion: Where)
    returns (out: seq<Violation>, status: Option<string>, seen: map<string, Where>)
    requires index.Valid()
    modifies index
    ensures index.Valid()
    ensures out == ClauseFindings(index.tree, evidence, Map(clause), seen0, at)
    ensures status == StatusOf(clause)
    ensures seen == match ClauseName(clause)
                    case None => seen0
                    case Some(id) => if id in seen0 then seen0 else seen0[id := criterion]
  {
    seen := seen0;
    var cwhere := at;
    var named, texted: seq<Violation> := [], [];
    var id := Get(clause, "id");
    if !NonEmptyStr(id) {
      named := [Violation(MissingField, cwhere)];
    } else if id.s in seen {
      named := [Violation(DuplicateClauseId, cwhere)];
    } else {
      seen := seen[id.s := criterion];
      cwhere := ClauseId(id.s);
    }
    if !HasText(clause) {
      texted := [Violation(MissingField, cwhere)];
    }
    var body;
    body, status := CheckClauseBody(index, evidence, clause, cwhere);
    out := named + texted + body;
  }

  lemma NotAClause(tree: FileTree, evidence: seq<Yaml>, clause: Yaml, seen: map<string, Where>, where_: Where)
    requires !clause.Map?
    ensures ClauseFindings(tree, evidence, clause, seen, where_) == [Violation(BadClause, where_)]
  {
  }

  method CheckClauses(index: TestIndex, evidence: seq<Yaml>, clauses: seq<Yaml>, seen0: map<string, Where>, where_: Where)
    returns (out: seq<Violation>, statuses: seq<string>, seen: map<string, Where>)
    requires index.Valid()
    modifies index
    ensures index.Valid()
    ensures out == ClausesFindings(index.tree, evidence, clauses, seen0, where_)
    ensures statuses == ClauseStatuses(clauses)
    ensures seen == SeenClauses(seen0, clauses, where_)
  {
    hide ClauseFindings;
    out, statuses, seen := [], [], seen0;
    for ci := 0 to |clauses|
      invariant index.Valid()
      invariant out == ClausesFindings(index.tree, evidence, clauses[..ci], seen0, where_)
      invariant statuses == ClauseStatuses(clauses[..ci])
      invariant seen == SeenClauses(seen0, clauses[..ci], where_)
    {
      assert clauses[..ci + 1][..ci] == clauses[..ci];
      if !clauses[ci].Map? {
        NotAClause(index.tree, evidence, clauses[ci], seen, ClauseAt(where_, ci));
        out := out + [Violation(BadClause, ClauseAt(where_, ci))];
        continue;
      }
      var found, status;
      found, status, seen := CheckClause(index, evidence, clauses[ci].fields, seen, ClauseAt(where_, ci), where_);
      out := out + found;
      if status.Some? {
        statuses := statuses + [status.value];
      }
    }
    assert clauses[..|clauses|] == clauses;
  }

  method CheckClaim(status: Option<string>, statuses: seq<string>, where_: Where) returns (out: seq<Violation>)
    ensures out == ClaimFindings(status, statuses, where_)
  {
    out := [];
    if status.Some? && statuses != [] {
      if status.value == "covered" && !(forall c :: c in statuses ==> c == "covered") {
        out := out + [Violation(StatusClauseMismatch, where_)];
      }
      if Rank(status.value) < 2 && status.value != "deliberate_future_dev"
         && exists c :: c in statuses && c in NEEDS_EVIDENCE {
        out := out + [Violation(StatusClauseMismatch, where_)];
      }
    }
  }

  method CheckClausePart(index: TestIndex, record: Record, evidence: seq<Yaml>, seen0: map<string, Where>, where_: Where)
    returns (out: seq<Violation>, seen: map<string, Where>)
    requires index.Valid()
    modifies index
    ensures index.Valid()
    ensures out == ClausePartFindings(index.tree, record, evidence, seen0, where_)
    ensures seen == if HasClauses(record) then SeenClauses(seen0, Get(record, "clauses").items, where_) else seen0
  {
    if !HasClauses(record) {
      return [Violation(NoClauses, where_)], seen0;
    }
    var found, statuses;
    found, statuses, seen := CheckClauses(index, evidence, Get(record, "clauses").items, seen0, where_);
    var claim := CheckClaim(StatusOf(record), statuses, where_);
    out := found + claim;
  }

  method CheckFields(record: Record, where_: Where) returns (out: seq<Violation>)
    ensures out == Collect(REQUIRED_FIELDS, FieldRule(record, where_))
  {
    out := [];
    var names := REQUIRED_FIELDS;
    ghost var rule := FieldRule(record, where_);
    for i := 0 to |names|
      invariant out == Collect(names[..i], rule)
    {
      Appended(names, i, rule, out);
      if names[i] !in record {
        out := out + [Violation(MissingField, where_)];
      }
    }
    CollectAll(names, rule);
  }

  method CheckHeader(index: TestIndex, record: Record, where_: Where) returns (out: seq<Violation>)
    ensures out == HeaderFindings(index.tree, record, where_)
  {
    var unknown, doc, debt, notes: seq<Violation> := [], [], [], [];
    var status := StatusOf(record);
    if status.None? {
      unknown := [Violation(UnknownStatus, where_)];
    }
    var docPath := Get(record, "document");
    if docPath.Str? && !index.FileExists(docPath.s) {
      doc := [Violation(UnknownDocument, where_)];
    }
    var debtClass := Get(record, "debt_class");
    if StatusIn(status, NEEDS_DEBT_CLASS) {
      if !IsOneOf(debtClass, DEBT_CLASSES) {
        debt := [Violation(DebtClassRequired, where_)];
      }
    } else if !debtClass.Null? {
      debt := [Violation(DebtClassNotAllowed, where_)];
    }
    if StatusIn(status, NEEDS_NOTES) && !Argued(Get(record, "notes")) {
      notes := [Violation(NotesRequired, where_)];
    }
    out := unknown + doc + debt + notes;
  }

  method CheckRecord(index: TestIndex, record: Record, position: nat, ids0: map<string, nat>, seen0: map<string, Where>)
    returns (verdict: Verdict, ids: map<string, nat>, seen: map<string, Where>)
    requires index.Valid()
    modifies index
    ensures index.Valid()
    ensures verdict == if RecordRaises(Map(record)) then TypeError
                       else Findings(RecordFindings(index.tree, Map(record), position, ids0, seen0))
    ensures verdict.Findings? ==> ids == (var id := Get(record, "id");
                                          if NonEmptyStr(id) && id.s !in ids0 then ids0[id.s := position] else ids0)
    ensures verdict.Findings? ==>
              seen == if HasClauses(record)
                      then SeenClauses(seen0, Get(record, "clauses").items, CriterionWhere(record, position)) else seen0
  {
    ids, seen := ids0, seen0;
    var where_ := Position(position);
    var named: seq<Violation> := [];
    var id := Get(record, "id");
    if NonEmptyStr(id) {
      where_ := CriterionId(id.s);
      if id.s in ids {
        named := [Violation(DuplicateId, where_)];
      } else {
        ids := ids[id.s := position];
      }
    } else {
      named := [Violation(MissingField, where_)];
    }
    var fields := CheckFields(record, where_);
    var header := CheckHeader(index, record, where_);
    var evidence := Evidence(record);
    var typed := CheckEvidence(index, StatusOf(record), evidence, EvidenceTypes(record), where_);
    if typed.TypeError? {
      return TypeError, ids, seen;
    }
    var axes := CheckAxes(record, StatusOf(record), evidence, where_);
    var clauses;
    clauses, seen := CheckClausePart(index, record, evidence, seen, where_);
    verdict := Findings(named + fields + header + typed.violations + axes + clauses);
  }

  lemma NotARecord(tree: FileTree, record: Yaml, position: nat, ids: map<string, nat>, seen: map<string, Where>)
    requires !record.Map?
    ensures RecordFindings(tree, record, position, ids, seen) == [Violation(BadRecord, Position(position))]
    ensures !RecordRaises(record)
  {
  }

  /**
   `validate`: the verdict does not depend on what the index has cached, and is TypeError exactly
   when some record's evidence types make the loop raise.
   */
  method Validate(document: Yaml, index: TestIndex) returns (verdict: Verdict)
    requires index.Valid()
    modifies index
    ensures index.Valid()
    ensures verdict == VerdictOn(index.tree, document)
  {
    hide RecordFindings, RecordRaises;
    if !HasCriteria(document) {
      return Findings([Violation(BadRoot, MapFile)]);
    }
    var criteria := Criteria(document);
    var out: seq<Violation> := [];
    var seenIds: map<string, nat>, seenClauseIds: map<string, Where> := map[], map[];
    for position := 0 to |criteria|
      invariant index.Valid()
      invariant out == CriteriaFindings(index.tree, criteria[..position])
      invariant seenIds == SeenIds(criteria[..position])
      invariant seenClauseIds == SeenClauseIds(criteria[..position])
      invariant forall k :: 0 <= k < position ==> !RecordRaises(criteria[k])
    {
      assert criteria[..position + 1][..position] == criteria[..position];
      if !criteria[position].Map? {
        NotARecord(index.tree, criteria[position], position, seenIds, seenClauseIds);
        out := out + [Violation(BadRecord, Position(position))];
        continue;
      }
      var found;
      found, seenIds, seenClauseIds :=
        CheckRecord(index, criteria[position].fields, position, seenIds, seenClauseIds);
      if found.TypeError? {
        assert criteria[position] in criteria;
        return TypeError;
      }
      out := out + found.violations;
    }
    assert criteria[..|criteria|] == criteria;
    verdict := Findings(out);
  }
}
