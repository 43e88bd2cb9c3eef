/**
 The vocabulary of the acceptance map once more, word for word and without tables, so that what the
 validator's tables mean can be read off: each lemma says what one of them amounts to.
 */
module Claims {
  import opened Text
  import opened Yaml
  import opened TestNodes
  import opened Vocabulary
  import opened Rules

  predicate IsStatus(v: Yaml)
  {
    || v == Str("covered") || v == Str("partial") || v == Str("uncovered")
    || v == Str("deliberate_future_dev") || v == Str("not_applicable") || v == Str("product_decision_required")
  }

  predicate IsDebtClass(v: Yaml)
  {
    v == Str("A") || v == Str("B") || v == Str("C") || v == Str("D")
  }

  predicate IsRequired(name: string)
  {
    || name == "id" || name == "document" || name == "section" || name == "summary" || name == "clauses"
    || name == "production_paths" || name == "test_evidence" || name == "evidence_type" || name == "status"
    || name == "notes"
  }

  predicate IsEvidenceType(etype: string)
  {
    || etype == "backend_unit" || etype == "backend_integration" || etype == "backend_contract"
    || etype == "backend_deterministic" || etype == "backend_acceptance" || etype == "frontend_component"
    || etype == "e2e"
  }

  /** The file lives where files of this evidence type live. */
  predicate LivesAt(path: string, etype: string)
  {
    || (etype == "backend_unit" && "backend/tests/unit/" <= path)
    || (etype == "backend_integration" && "backend/tests/integration/" <= path)
    || (etype == "backend_contract" && "backend/tests/contract/" <= path)
    || (etype == "backend_deterministic" && "backend/tests/deterministic/" <= path)
    || (etype == "backend_acceptance" && "backend/tests/acceptance/" <= path)
    || (etype == "frontend_component" && "frontend/src/" <= path)
    || (etype == "e2e" && "frontend/e2e/" <= path)
  }

  /** The five axes whose claims are the server's to prove. */
  predicate IsServerAxis(axis: string)
  {
    || axis == "auth" || axis == "occ" || axis == "idempotency" || axis == "historical_integrity"
    || axis == "agent_parity"
  }

  predicate IsAxis(axis: string)
  {
    axis == "positive" || axis == "negative" || axis == "async_recovery" || IsServerAxis(axis)
  }

  /** A non-empty list on a server-truth axis has no test that could prove the claim. */
  ghost predicate TooWeak(axis: string, nodes: seq<Yaml>)
  {
    && nodes != []
    && ((IsServerAxis(axis) && !exists n :: n in nodes && "backend/tests/" <= NodePath(n))
        || (axis == "async_recovery"
            && !exists n :: n in nodes && ("backend/tests/integration/" <= NodePath(n)
                                           || "backend/tests/contract/" <= NodePath(n))))
  }

  /** One entry or a list of them, the map may write either; a list stays as it is, and nothing is no entry. */
  lemma ListsAndEntries(v: Yaml, n: Yaml)
    ensures n in AsList(v) <==> if v.List? then n in v.items else n == v && v != Null
    ensures v.List? ==> AsList(v) == v.items
    ensures !v.List? ==> |AsList(v)| <= 1
  {
  }

  // ---- what the tables amount to

  lemma StatusWords()
    ensures forall v :: IsOneOf(v, STATUSES) <==> IsStatus(v)
  {
  }

  lemma DebtWords()
    ensures forall v :: IsOneOf(v, DEBT_CLASSES) <==> IsDebtClass(v)
    ensures forall s :: s in NEEDS_DEBT_CLASS <==> s == "partial" || s == "uncovered"
  {
  }

  lemma EvidenceWords()
    ensures forall s :: s in NEEDS_EVIDENCE <==> s == "covered" || s == "partial"
    ensures forall s :: s in FORBIDS_EVIDENCE <==>
                        s == "uncovered" || s == "not_applicable" || s == "product_decision_required"
  {
  }

  lemma NotesWords()
    ensures forall s :: s in NEEDS_NOTES <==> s != "covered" && IsStatus(Str(s))
  {
  }

  lemma RequiredWords()
    ensures forall name :: name in REQUIRED_FIELDS <==> IsRequired(name)
  {
  }

  lemma TypeWords()
    ensures forall etype :: etype in EVIDENCE_TYPES <==> IsEvidenceType(etype)
  {
  }

  lemma RootWords(path: string, etype: string)
    ensures etype in EVIDENCE_TYPES && path != "" && StartsWith(path, RootOf(etype)) <==> LivesAt(path, etype)
  {
    TypeWords();
    hide EVIDENCE_TYPES;
  }

  lemma AxisWords()
    ensures forall axis :: axis in AXES <==> IsAxis(axis)
    ensures forall axis :: HasRule(axis) <==> IsServerAxis(axis) || axis == "async_recovery"
  {
  }

  lemma ProofWords(axis: string, path: string)
    ensures path != "" && ProvesAxis(axis, path) <==>
            if axis == "async_recovery" then "backend/tests/integration/" <= path || "backend/tests/contract/" <= path
            else "backend/tests/" <= path
  {
  }

  /** The validator's axis rule, in these words. */
  lemma WeaknessWords(axis: string, nodes: seq<Yaml>)
    ensures nodes != [] && HasRule(axis) && !ProvenOn(axis, nodes) <==> TooWeak(axis, nodes)
  {
    AxisWords();
    hide AXES, HasRule, NodePath, ProvesAxis, IsServerAxis;
    forall n | n in nodes
      ensures NodePath(n) != "" && ProvesAxis(axis, NodePath(n)) <==>
              if axis == "async_recovery"
              then "backend/tests/integration/" <= NodePath(n) || "backend/tests/contract/" <= NodePath(n)
              else "backend/tests/" <= NodePath(n)
    {
      ProofWords(axis, NodePath(n));
    }
    NotDurable(axis);
  }

  lemma NotDurable(axis: string)
    ensures IsServerAxis(axis) ==> axis != "async_recovery"
  {
  }
}
