/** The document classification rule (scripts/generate_repository_facts.py:620-698). */
module Classification {
  import opened Wrappers

  datatype Status = Current | Historical

  /**
   One document of the tree, with what its globs and its first three lines say. `slice` is the
   number of an `ADIM<n>...KICKOFF.md` name.
   */
  datatype Doc = Doc(path: string, status: Option<Status>, alwaysHistorical: bool, kickoff: bool, slice: Option<nat>)

  datatype Failure =
    | NoMarker(path: string)
    | CurrentHistory(path: string)
    | ManyCurrent(paths: seq<string>)
    | Superseded(path: string, newer: seq<string>)

  predicate IsCurrent(doc: Doc) { doc.status == Some(Current) }

  /** The documents marked current, in order. */
  function CurrentDocs(docs: seq<Doc>): seq<Doc>
  {
    if docs == [] then []
    else CurrentDocs(docs[..|docs| - 1]) + if IsCurrent(docs[|docs| - 1]) then [docs[|docs| - 1]] else []
  }

  function Newer(docs: seq<Doc>, number: nat): seq<string>
  {
    if docs == [] then []
    else
      var last := docs[|docs| - 1];
      Newer(docs[..|docs| - 1], number)
      + if last.kickoff && last.slice.Some? && last.slice.value > number then [last.path] else []
  }

  function DocFindings(doc: Doc): seq<Failure>
  {
    if doc.status.None? then [NoMarker(doc.path)]
    else if IsCurrent(doc) && doc.alwaysHistorical then [CurrentHistory(doc.path)]
    else []
  }

  function AllDocFindings(docs: seq<Doc>): seq<Failure>
  {
    if docs == [] then [] else AllDocFindings(docs[..|docs| - 1]) + DocFindings(docs[|docs| - 1])
  }

  function Paths(docs: seq<Doc>): seq<string>
  {
    seq(|docs|, i requires 0 <= i < |docs| => docs[i].path)
  }

  /** `_check_live_kickoff_is_newest`: silent unless the live document is slice-numbered. */
  function NewestFindings(docs: seq<Doc>, live: Doc): seq<Failure>
  {
    if live.slice.None? || Newer(docs, live.slice.value) == [] then []
    else [Superseded(live.path, Newer(docs, live.slice.value))]
  }

  function Report(docs: seq<Doc>): seq<Failure>
  {
    AllDocFindings(docs)
    + (if |CurrentDocs(docs)| > 1 then [ManyCurrent(Paths(CurrentDocs(docs)))]
       else if |CurrentDocs(docs)| == 1 then NewestFindings(docs, CurrentDocs(docs)[0])
       else [])
  }

  /** The two documents are different entries of the list, both marked current. */
  predicate TwoCurrent(docs: seq<Doc>)
  {
    exists i, j :: 0 <= i < j < |docs| && docs[i].status == Some(Current) && docs[j].status == Some(Current)
  }

  /** What each failure says of the documents. */
  ghost predicate Reason(docs: seq<Doc>, f: Failure)
  {
    match f
    case NoMarker(path) => exists d :: d in docs && d.path == path && d.status.None?
    case CurrentHistory(path) =>
      exists d :: d in docs && d.path == path && d.status == Some(Current) && d.alwaysHistorical
    case ManyCurrent(paths) => TwoCurrent(docs) && paths == Paths(CurrentDocs(docs))
    case Superseded(path, newer) =>
      && !TwoCurrent(docs)
      && exists d :: d in docs && d.path == path && d.status == Some(Current) && d.slice.Some?
                     && newer == Newer(docs, d.slice.value) && newer != []
  }

  lemma {:induction false} DocFindingsMember(docs: seq<Doc>, f: Failure)
    ensures f in AllDocFindings(docs) <==> exists d :: d in docs && f in DocFindings(d)
  {
    if docs != [] {
      DocFindingsMember(docs[..|docs| - 1], f);
      assert docs == docs[..|docs| - 1] + [docs[|docs| - 1]];
      hide DocFindings;
    }
  }

  /** The paths of the kickoffs with a greater number, and no others. */
  lemma {:induction false} NewerMember(docs: seq<Doc>, number: nat, path: string)
    ensures path in Newer(docs, number) <==>
            exists k :: k in docs && k.path == path && k.kickoff && k.slice.Some? && k.slice.value > number
  {
    if docs != [] {
      NewerMember(docs[..|docs| - 1], number, path);
      assert docs == docs[..|docs| - 1] + [docs[|docs| - 1]];
    }
  }

  lemma ReasonsExactly(docs: seq<Doc>, f: Failure)
    ensures f in Report(docs) <==> Reason(docs, f)
  {
    DocFindingsMember(docs, f);
    CurrentDocsAre(docs);
    assert |CurrentDocs(docs)| > 1 <==> TwoCurrent(docs);
    var current := CurrentDocs(docs);
    assert f in Report(docs) <==>
           || f in AllDocFindings(docs)
           || (|current| > 1 && f == ManyCurrent(Paths(current)))
           || (|current| == 1 && f in NewestFindings(docs, current[0]));
    hide AllDocFindings, CurrentDocs, Newer, Paths, Report;
    if |current| == 1 {
      assert forall d :: d in current <==> d == current[0];
    }
  }

  lemma ReportExactly(docs: seq<Doc>)
    ensures forall f :: f in Report(docs) <==> Reason(docs, f)
    ensures Report(docs) == [] <==> WellClassified(docs)
  {
    forall f
      ensures f in Report(docs) <==> Reason(docs, f)
    {
      ReasonsExactly(docs, f);
    }
    ClassifiedExactly(docs);
    hide Reason, AllDocFindings, CurrentDocs, Newer, Paths, WellClassified;
  }

  /** `check_classification` over the classified documents, in path order. */
  method CheckClassification(docs: seq<Doc>) returns (failures: seq<Failure>)
    ensures failures == Report(docs)
    ensures forall f :: f in failures <==> Reason(docs, f)
    ensures failures == [] <==> WellClassified(docs)
  {
    hide Reason, WellClassified, Newer, Paths;
    failures := [];
    var current: seq<Doc> := [];
    for i := 0 to |docs|
      invariant failures == AllDocFindings(docs[..i]) && current == CurrentDocs(docs[..i])
    {
      assert docs[..i + 1][..i] == docs[..i];
      if docs[i].status.None? {
        failures := failures + [NoMarker(docs[i].path)];
        continue;
      }
      if docs[i].status == Some(Current) {
        current := current + [docs[i]];
        if docs[i].alwaysHistorical {
          failures := failures + [CurrentHistory(docs[i].path)];
        }
      }
    }
    assert docs[..|docs|] == docs;
    ReportExactly(docs);
    if |current| > 1 {
      failures := failures + [ManyCurrent(Paths(current))];
    } else if |current| == 1 {
      failures := failures + NewestFindings(docs, current[0]);
    }
  }

  /**
   Every document is marked, no history record is live, at most one document is live, and if that
   one is slice-numbered no kickoff has a greater number.
   */
  ghost predicate WellClassified(docs: seq<Doc>)
  {
    && (forall d :: d in docs ==> d.status.Some? && (IsCurrent(d) ==> !d.alwaysHistorical))
    && (forall i, j :: 0 <= i < j < |docs| ==> !(IsCurrent(docs[i]) && IsCurrent(docs[j])))
    && forall d, k :: d in docs && k in docs && IsCurrent(d) && d.slice.Some? && k.kickoff && k.slice.Some?
                      ==> k.slice.value <= d.slice.value
  }

  lemma {:induction false} DocFindingsEmpty(docs: seq<Doc>)
    ensures AllDocFindings(docs) == []
        <==> forall d :: d in docs ==> d.status.Some? && (IsCurrent(d) ==> !d.alwaysHistorical)
  {
    if docs != [] {
      DocFindingsEmpty(docs[..|docs| - 1]);
      assert docs == docs[..|docs| - 1] + [docs[|docs| - 1]];
    }
  }

  lemma {:induction false} CurrentDocsAre(docs: seq<Doc>)
    ensures forall d :: d in CurrentDocs(docs) <==> d in docs && IsCurrent(d)
    ensures |CurrentDocs(docs)| <= 1 <==> forall i, j :: 0 <= i < j < |docs| ==> !(IsCurrent(docs[i]) && IsCurrent(docs[j]))
  {
    if docs != [] {
      var init, last := docs[..|docs| - 1], docs[|docs| - 1];
      assert docs == init + [last];
      CurrentDocsAre(init);
      assert forall i :: 0 <= i < |init| ==> docs[i] == init[i];
      if IsCurrent(last) && CurrentDocs(init) != [] {
        assert CurrentDocs(init)[0] in init;
        var i :| 0 <= i < |init| && init[i] == CurrentDocs(init)[0];
        assert IsCurrent(docs[i]) && IsCurrent(docs[|docs| - 1]);
      }
      if CurrentDocs(init) == [] {
        assert forall d :: d in init ==> d !in CurrentDocs(init);
        assert forall i :: 0 <= i < |init| ==> init[i] in init;
      }
    }
  }

  lemma {:induction false} NewerEmpty(docs: seq<Doc>, number: nat)
    ensures Newer(docs, number) == []
        <==> forall k :: k in docs && k.kickoff && k.slice.Some? ==> k.slice.value <= number
  {
    if docs != [] {
      NewerEmpty(docs[..|docs| - 1], number);
      assert docs == docs[..|docs| - 1] + [docs[|docs| - 1]];
    }
  }

  lemma ClassifiedExactly(docs: seq<Doc>)
    ensures WellClassified(docs) <==>
            && AllDocFindings(docs) == []
            && |CurrentDocs(docs)| <= 1
            && (|CurrentDocs(docs)| == 1 ==> NewestFindings(docs, CurrentDocs(docs)[0]) == [])
  {
    hide AllDocFindings, CurrentDocs, Newer, IsCurrent;
    DocFindingsEmpty(docs);
    CurrentDocsAre(docs);
    if |CurrentDocs(docs)| == 1 {
      var live := CurrentDocs(docs)[0];
      if live.slice.Some? {
        NewerEmpty(docs, live.slice.value);
      }
      assert live in CurrentDocs(docs);
    }
  }
}
