/** What an accepted map guarantees beyond its single rules. */
module Consequences {
  import opened Text
  import opened Yaml
  import opened TestNodes
  import opened Vocabulary
  import opened Rules
  import opened Claims
  import opened Honesty
  import opened Debt

  const BACKEND_TYPES: set<string> :=
    {"backend_unit", "backend_integration", "backend_contract", "backend_deterministic", "backend_acceptance"}

  /** A typed file under the backend root has a backend type. */
  lemma BackendFilesHaveBackendTypes(node: Yaml, t: string)
    requires Under(node, t) && "backend/tests/" <= NodePath(node)
    ensures t in BACKEND_TYPES
  {
    assert NodePath(node)[0] == 'b';
  }

  lemma DurableFilesHaveDurableTypes(node: Yaml, t: string)
    requires Under(node, t)
    requires "backend/tests/integration/" <= NodePath(node) || "backend/tests/contract/" <= NodePath(node)
    ensures t in {"backend_integration", "backend_contract"}
  {
    var u := if "backend/tests/integration/" <= NodePath(node) then "backend_integration" else "backend_contract";
    OneTypePerNode(node, t, u);
  }

  /** What proves a claim on a server-truth axis. */
  predicate Proves(axis: string, node: Yaml)
  {
    || (IsServerAxis(axis) && "backend/tests/" <= NodePath(node))
    || (axis == "async_recovery"
        && ("backend/tests/integration/" <= NodePath(node) || "backend/tests/contract/" <= NodePath(node)))
  }

  lemma AxisWitness(tree: FileTree, record: Yaml, axis: string) returns (node: Yaml)
    requires HonestRecord(tree, record) && (IsServerAxis(axis) || axis == "async_recovery")
    requires AsList(Get(record.fields, axis)) != []
    ensures node in AsList(Get(record.fields, axis)) && node in Evidence(record.fields) && Proves(axis, node)
  {
    hide NodePath, RealTest, HonestTypes, HonestHeader, HonestClauses, Backs, IsServerAxis;
    assert IsAxis(axis);
    assert HonestAxis(record.fields, axis);
    var nodes := AsList(Get(record.fields, axis));
    NotDurable(axis);
    if IsServerAxis(axis) {
      node :| node in nodes && "backend/tests/" <= NodePath(node);
    } else {
      node :| node in nodes && ("backend/tests/integration/" <= NodePath(node) || "backend/tests/contract/" <= NodePath(node));
    }
  }

  /**
   A claim on a server-truth axis of an accepted map is proven on the server: each of the five lists has a
   node under the backend tests, and `async_recovery` one that crosses a process or transaction boundary.
   */
  lemma AxesProvenOnServer(tree: FileTree, document: Yaml, record: Record)
    requires Accepted(tree, document) && Map(record) in Criteria(document)
    ensures forall axis :: axis in {"auth", "occ", "idempotency", "historical_integrity", "agent_parity"}
                           && AsList(Get(record, axis)) != [] ==>
              exists n :: n in AsList(Get(record, axis)) && "backend/tests/" <= NodePath(n)
    ensures AsList(Get(record, "async_recovery")) != [] ==>
              exists n :: n in AsList(Get(record, "async_recovery"))
                          && ("backend/tests/integration/" <= NodePath(n) || "backend/tests/contract/" <= NodePath(n))
  {
    AcceptedExactly(tree, document);
    hide HonestRecord, VerdictOn, DistinctNames, NodePath;
    forall axis | IsServerAxis(axis) && AsList(Get(record, axis)) != []
      ensures exists n :: n in AsList(Get(record, axis)) && "backend/tests/" <= NodePath(n)
    {
      NotDurable(axis);
      var n := AxisWitness(tree, Map(record), axis);
    }
    if AsList(Get(record, "async_recovery")) != [] {
      var n := AxisWitness(tree, Map(record), "async_recovery");
      NotDurable("async_recovery");
    }
  }

  lemma HonestTypesOf(tree: FileTree, record: Yaml)
    requires HonestRecord(tree, record)
    ensures HonestTypes(Evidence(record.fields), EvidenceTypes(record.fields))
  {
    hide HonestTypes, HonestHeader, HonestClauses;
  }

  predicate TypeProves(axis: string, etype: string)
  {
    if axis == "async_recovery" then etype in {"backend_integration", "backend_contract"} else etype in BACKEND_TYPES
  }

  lemma ProvingFileHasProvingType(axis: string, node: Yaml, t: string)
    requires Under(node, t) && Proves(axis, node)
    ensures TypeProves(axis, t)
  {
    hide LivesAt, NodePath;
    if axis == "async_recovery" {
      DurableFilesHaveDurableTypes(node, t);
    } else {
      BackendFilesHaveBackendTypes(node, t);
    }
  }

  /**
   In an accepted record the declared evidence types are exactly the types of the cited files, and
   a claim on a server-truth axis is visible in them: durable recovery declares an integration or
   contract type, every other server-truth axis a backend type.
   */
  lemma AxesShowInDeclaredTypes(tree: FileTree, document: Yaml, record: Record, axis: string)
    requires Accepted(tree, document) && Map(record) in Criteria(document)
    requires IsServerAxis(axis) || axis == "async_recovery"
    requires AsList(Get(record, axis)) != []
    ensures DeclaredTypes(EvidenceTypes(record)) == CitedTypes(Evidence(record))
    ensures exists t :: t in DeclaredTypes(EvidenceTypes(record)) && TypeProves(axis, t)
  {
    AcceptedExactly(tree, document);
    hide HonestHeader, HonestClauses, HonestProof, VerdictOn, Under, Proves, IsServerAxis, NodePath, CitedTypes, DistinctNames,
      TypeProves;
    var n := AxisWitness(tree, Map(record), axis);
    HonestTypesOf(tree, Map(record));
    var t :| Under(n, t);
    CitedType(Evidence(record), t);
    ProvingFileHasProvingType(axis, n, t);
  }

  lemma HonestClauseOf(tree: FileTree, record: Record, clause: Record)
    requires HonestRecord(tree, Map(record)) && Map(clause) in AsList(Get(record, "clauses"))
    ensures HonestClause(tree, Evidence(record), Map(clause))
    ensures Get(record, "status") == Str("covered") ==> Get(clause, "status") == Str("covered")
  {
    HeaderStatus(tree, record);
    hide HonestHeader, HonestProof, HonestClause;
  }

  /** A covered criterion of an accepted map: each of its clauses cites a real test of its evidence. */
  lemma CoveredMeansTested(tree: FileTree, document: Yaml, record: Record, clause: Record)
    requires Accepted(tree, document) && Map(record) in Criteria(document)
    requires Get(record, "status") == Str("covered") && Map(clause) in AsList(Get(record, "clauses"))
    ensures exists n :: n in AsList(Get(clause, "test_evidence")) && n in Evidence(record)
                        && n.Str? && NamesRealTest(tree, n.s)
    ensures Get(clause, "unfalsifiable") != Bool(true)
  {
    AcceptedExactly(tree, document);
    hide HonestRecord, VerdictOn, NamesRealTest, DistinctNames;
    HonestClauseOf(tree, record, clause);
    var nodes := AsList(Get(clause, "test_evidence"));
    assert nodes[0] in nodes && RealTest(tree, nodes[0]);
  }

  // ---- two documents

  const ODD_CLAUSE: Record :=
    map["id" := Str("c"), "text" := Null, "status" := Str("uncovered"), "unfalsifiable" := Bool(true)]

  const ODD_RECORD: Record :=
    map["id" := Str("x"), "document" := Null, "section" := Null, "summary" := Null, "clauses" := List([Map(ODD_CLAUSE)]),
        "production_paths" := Null, "test_evidence" := Null, "evidence_type" := Null, "status" := Str("not_applicable"),
        "notes" := Str("argued")]

  const ODD_MAP: Yaml := Map(map["criteria" := List([Map(ODD_RECORD)])])

  lemma OddHeader()
    ensures HonestHeader(map[], ODD_RECORD)
  {
    var r := ODD_RECORD;
    assert "argued"[0] in "argued" && !IsSpace("argued"[0]);
  }

  lemma OddProof()
    ensures HonestProof(map[], ODD_RECORD)
  {
    assert Evidence(ODD_RECORD) == [] && EvidenceTypes(ODD_RECORD) == [];
    assert DeclaredTypes([]) == {} == CitedTypes([]);
    forall axis | IsAxis(axis)
      ensures HonestAxis(ODD_RECORD, axis)
    {
      assert axis !in ODD_RECORD;
    }
  }

  lemma OddClauses()
    ensures HonestClauses(map[], ODD_RECORD)
  {
    assert HonestClause(map[], [], Map(ODD_CLAUSE));
  }

  /**
   Accepted, although the marker sits on a criterion that is not open debt and although the clause's
   text is null: the map has one unfalsifiable clause, and neither the ledger nor any count of open
   debt shows it.
   */
  lemma UnfalsifiableNeedNotStayOpen()
    ensures Accepted(map[], ODD_MAP)
    ensures Get(ODD_CLAUSE, "unfalsifiable") == Bool(true) && Get(ODD_CLAUSE, "text") == Null
    ensures var criteria := Criteria(ODD_MAP);
            && AllMaps(criteria)
            && |Unfalsifiable(criteria)| == 1 && |Unfalsifiable(OpenRows(criteria))| == 0
            && CountOf(criteria, "status", "partial") == CountOf(criteria, "status", "uncovered") == 0
  {
    hide HonestHeader, HonestProof, HonestClauses, VerdictOn, Accepted, Honest;
    OddHeader();
    OddProof();
    OddClauses();
    OneRecordHonest(ODD_RECORD);
    AcceptedExactly(map[], ODD_MAP);
    OddCounts();
  }

  lemma OddCounts()
    ensures var criteria := [Map(ODD_RECORD)];
            && |Unfalsifiable(criteria)| == 1 && |Unfalsifiable(OpenRows(criteria))| == 0
            && CountOf(criteria, "status", "partial") == CountOf(criteria, "status", "uncovered") == 0
  {
    var criteria, clauses := [Map(ODD_RECORD)], [Map(ODD_CLAUSE)];
    assert criteria[..0] == [] && clauses[..0] == [];
    assert MarkedIn(Map(ODD_RECORD), clauses) == [(Map(ODD_RECORD), Map(ODD_CLAUSE))];
    assert "not_applicable" != "partial" && "not_applicable" != "uncovered";
  }

  lemma OneDistinct(v: Yaml)
    ensures DistinctNames([v])
  {
  }

  lemma ClausesOfOne(record: Record)
    ensures AllClauses([Map(record)]) == if HasClauses(record) then Get(record, "clauses").items else []
  {
    var criteria := [Map(record)];
    assert criteria[..0] == [];
    assert AllClauses([]) == [];
  }

  lemma OneRecordHonest(record: Record)
    requires HonestRecord(map[], Map(record)) && |AsList(Get(record, "clauses"))| == 1
    ensures Honest(map[], Map(map["criteria" := List([Map(record)])]))
  {
    HonestRecordFacts(map[], Map(record));
    ClausesOfOne(record);
    OneDistinct(Map(record));
    OneDistinct(AsList(Get(record, "clauses"))[0]);
    var document := Map(map["criteria" := List([Map(record)])]);
    assert HasCriteria(document) && Criteria(document) == [Map(record)];
    hide HonestRecord, NameOf, RecordRaises, DistinctNames, AllClauses, Criteria, HasCriteria;
    var clauses := Get(record, "clauses").items;
    assert clauses == [clauses[0]];
  }

  /** A list nested in `evidence_type` makes the gate raise instead of reporting a violation. */
  lemma GateCanRaise(record: Record)
    requires Get(record, "evidence_type") == List([List([])])
    ensures VerdictOn(map[], Map(map["criteria" := List([Map(record)])])) == TypeError
  {
    assert EvidenceTypes(record)[0] in EvidenceTypes(record);
    assert RecordRaises(Map(record));
    assert Map(record) in [Map(record)];
  }

  /** So does a scalar that is no string beside a cited node that nothing explains: the message joins the types. */
  lemma GateCanRaiseOnJoin(record: Record, node: string)
    requires Get(record, "evidence_type") == List([Num(1)]) && Get(record, "test_evidence") == Str(node)
    ensures VerdictOn(map[], Map(map["criteria" := List([Map(record)])])) == TypeError
  {
    assert EvidenceTypes(record)[0] in EvidenceTypes(record) && Evidence(record)[0] in Evidence(record);
    assert !Explained(Str(node), EvidenceTypes(record));
    assert RecordRaises(Map(record));
    assert Map(record) in [Map(record)];
  }
}
