/**
 The migration graph facts (scripts/generate_repository_facts.py:81-104): which revisions are heads,
 and what a single head says about the order in which migrations run.
 */
module RevisionGraph {
  import opened Wrappers

  /** Every revision with its `down_revision`. */
  type Revisions = map<string, Option<string>>

  /** What the two assignments of a migration file say. */
  datatype Version = Version(revision: Option<string>, down: Option<string>)

  function Parents(m: Revisions): set<string>
  {
    set r | r in m && m[r].Some? :: m[r].value
  }

  function Heads(m: Revisions): set<string>
  {
    set r | r in m && r !in Parents(m)
  }

  predicate SingleHead(m: Revisions)
  {
    |Heads(m)| == 1
  }

  /** The dictionary after these files, None where a file has no revision. */
  function Collected(versions: seq<Version>): Option<Revisions>
  {
    if versions == [] then Some(map[])
    else
      var last := versions[|versions| - 1];
      match Collected(versions[..|versions| - 1])
      case None => None
      case Some(m) => if last.revision.None? then None else Some(m[last.revision.value := last.down])
  }

  /** The last file, among these, that declares the revision. */
  predicate LastNaming(versions: seq<Version>, r: string, i: nat)
  {
    && i < |versions| && versions[i].revision == Some(r)
    && forall j :: i < j < |versions| ==> versions[j].revision != Some(r)
  }

  predicate Names(version: Version, r: string)
  {
    version.revision == Some(r)
  }

  /** Collecting exits exactly when some file declares no revision. */
  lemma {:induction false} ExitsExactly(versions: seq<Version>)
    ensures Collected(versions).None? <==> exists version :: version in versions && version.revision.None?
  {
    if versions != [] {
      ExitsExactly(versions[..|versions| - 1]);
      assert versions == versions[..|versions| - 1] + [versions[|versions| - 1]];
    }
  }

  /** The collected map has exactly the revisions that the files declare ... */
  lemma {:induction false} KeysExactly(versions: seq<Version>, r: string)
    requires Collected(versions).Some?
    ensures r in Collected(versions).value <==> exists version :: version in versions && Names(version, r)
  {
    if versions != [] {
      var init, last := versions[..|versions| - 1], versions[|versions| - 1];
      KeysExactly(init, r);
      assert versions == init + [last];
      assert r in Collected(versions).value <==> r in Collected(init).value || Names(last, r);
      hide Collected, Names;
      assert forall version :: version in versions <==> version in init || version == last;
    }
  }

  /** ... each with the parent that the last file declaring it names. */
  lemma {:induction false} ParentsExactly(versions: seq<Version>, r: string, i: nat)
    requires Collected(versions).Some? && LastNaming(versions, r, i)
    ensures r in Collected(versions).value && Collected(versions).value[r] == versions[i].down
  {
    var n := |versions| - 1;
    if i < n {
      var init := versions[..n];
      assert forall j :: 0 <= j < n ==> init[j] == versions[j];
      ParentsExactly(init, r, i);
      assert versions[n].revision != Some(r);
    }
  }

  /** All of it, for the map that the graph facts are read from. */
  lemma CollectedExactly(versions: seq<Version>)
    ensures Collected(versions).None? <==> exists version :: version in versions && version.revision.None?
    ensures Collected(versions).Some? ==>
              forall r :: r in Collected(versions).value <==> exists version :: version in versions && Names(version, r)
    ensures Collected(versions).Some? ==>
              forall r, i: nat :: LastNaming(versions, r, i) ==>
                r in Collected(versions).value && Collected(versions).value[r] == versions[i].down
  {
    hide Collected, Names;
    ExitsExactly(versions);
    if Collected(versions).Some? {
      forall r
        ensures r in Collected(versions).value <==> exists version :: version in versions && Names(version, r)
      {
        KeysExactly(versions, r);
      }
      forall r, i: nat | LastNaming(versions, r, i)
        ensures r in Collected(versions).value && Collected(versions).value[r] == versions[i].down
      {
        ParentsExactly(versions, r, i);
      }
    }
  }

  lemma {:induction false} NoneStays(versions: seq<Version>, k: nat)
    requires k <= |versions| && Collected(versions[..k]).None?
    ensures Collected(versions).None?
    decreases |versions|
  {
    if k < |versions| {
      assert versions[..|versions| - 1][..k] == versions[..k];
      NoneStays(versions[..|versions| - 1], k);
    } else {
      assert versions[..k] == versions;
    }
  }

  datatype AlembicFacts = AlembicFacts(revisionCount: nat, heads: set<string>, head: Option<string>, singleHead: bool)

  /** `collect_alembic`: None stands for its SystemExit. */
  method CollectAlembic(versions: seq<Version>) returns (facts: Option<AlembicFacts>)
    ensures facts.None? <==> Collected(versions).None?
    ensures facts.Some? ==>
              var m := Collected(versions).value;
              && facts.value.revisionCount == |m|
              && facts.value.heads == Heads(m)
              && (facts.value.singleHead <==> SingleHead(m))
              && facts.value.head.Some? == facts.value.singleHead
              && (facts.value.head.Some? ==> Heads(m) == {facts.value.head.value})
  {
    var revisions: Revisions := map[];
    for i := 0 to |versions|
      invariant Collected(versions[..i]) == Some(revisions)
    {
      assert versions[..i + 1][..i] == versions[..i];
      if versions[i].revision.None? {
        NoneStays(versions, i + 1);
        return None;
      }
      revisions := revisions[versions[i].revision.value := versions[i].down];
    }
    assert versions[..|versions|] == versions;
    var heads := Heads(revisions);
    var head: Option<string> := None;
    if |heads| == 1 {
      var h :| h in heads;
      OnlyElement(heads, h);
      head := Some(h);
    }
    facts := Some(AlembicFacts(|revisions|, heads, head, |heads| == 1));
  }

  lemma OnlyElement(s: set<string>, x: string)
    requires |s| == 1 && x in s
    ensures s == {x}
  {
    assert |s - {x}| == 0;
    assert s == {x} + (s - {x});
  }

  // ---- one path

  function Next(w: seq<string>, i: nat): Option<string>
    requires i < |w|
  {
    if i + 1 < |w| then Some(w[i + 1]) else None
  }

  /** Walking `down_revision` from `w[0]` visits exactly `w` and ends at a revision without parent. */
  ghost predicate IsWalk(m: Revisions, w: seq<string>)
  {
    && w != []
    && forall i :: 0 <= i < |w| ==> w[i] in m && m[w[i]] == Next(w, i)
  }

  /** The walk meets every revision exactly once. */
  ghost predicate CoversOnce(m: Revisions, w: seq<string>)
  {
    && (forall r :: r in m ==> r in w)
    && forall i, j :: 0 <= i < j < |w| ==> w[i] != w[j]
  }

  ghost predicate OnePath(m: Revisions)
  {
    exists w :: IsWalk(m, w) && CoversOnce(m, w)
  }

  /** No revision names a parent that no file declares. */
  ghost predicate NoDanglingParent(m: Revisions)
  {
    Parents(m) <= m.Keys
  }

  ghost predicate IsRank(m: Revisions, rank: map<string, nat>)
  {
    && m.Keys <= rank.Keys
    && forall r :: r in m && m[r].Some? && m[r].value in m ==> rank[m[r].value] < rank[r]
  }

  /** Going down always leads to a smaller rank, so no walk can come back. */
  ghost predicate Acyclic(m: Revisions)
  {
    exists rank :: IsRank(m, rank)
  }

  lemma {:induction false} WalkDown(m: Revisions, rank: map<string, nat>, r: string) returns (w: seq<string>)
    requires IsRank(m, rank) && NoDanglingParent(m) && r in m
    ensures IsWalk(m, w) && w[0] == r
    ensures forall i, j :: 0 <= i < j < |w| ==> rank[w[j]] < rank[w[i]]
    decreases rank[r]
  {
    match m[r]
    case None => w := [r];
    case Some(p) =>
      assert p in Parents(m);
      var rest := WalkDown(m, rank, p);
      w := [r] + rest;
  }

  lemma {:induction false} RankBound(keys: set<string>, rank: map<string, nat>) returns (bound: nat)
    requires keys <= rank.Keys
    ensures forall r :: r in keys ==> rank[r] <= bound
  {
    if keys == {} {
      bound := 0;
    } else {
      var k :| k in keys;
      var rest := RankBound(keys - {k}, rank);
      bound := if rank[k] > rest then rank[k] else rest;
    }
  }

  /** Climbing from any revision towards a child ends at the only head, so the walk from there passes it. */
  lemma {:induction false} Visited(m: Revisions, rank: map<string, nat>, bound: nat, w: seq<string>, r: string)
    requires IsRank(m, rank) && (forall k :: k in m ==> rank[k] <= bound)
    requires IsWalk(m, w) && Heads(m) == {w[0]} && r in m
    ensures r in w
    decreases bound - rank[r]
  {
    if r != w[0] {
      assert r !in Heads(m);
      var c :| c in m && m[c] == Some(r);
      Visited(m, rank, bound, w, c);
      var i :| 0 <= i < |w| && w[i] == c;
      assert m[w[i]] == Next(w, i);
    }
  }

  lemma SinglePathFromHead(m: Revisions)
    requires SingleHead(m) && Acyclic(m) && NoDanglingParent(m)
    ensures OnePath(m)
  {
    var rank :| IsRank(m, rank);
    var bound := RankBound(m.Keys, rank);
    var h :| h in Heads(m);
    OnlyElement(Heads(m), h);
    var w := WalkDown(m, rank, h);
    forall r | r in m
      ensures r in w
    {
      Visited(m, rank, bound, w, r);
    }
    assert CoversOnce(m, w);
  }

  /** On a covering walk the parents are exactly the revisions behind the first. */
  lemma ParentsOnPath(m: Revisions, w: seq<string>, r: string)
    requires IsWalk(m, w) && CoversOnce(m, w)
    ensures r in Parents(m) <==> exists i :: 0 < i < |w| && w[i] == r
  {
    if r in Parents(m) {
      var c :| c in m && m[c] == Some(r);
      var j :| 0 <= j < |w| && w[j] == c;
      assert m[w[j]] == Next(w, j);
      assert w[j + 1] == r;
    }
    if i :| 0 < i < |w| && w[i] == r {
      assert m[w[i - 1]] == Next(w, i - 1);
      assert w[i - 1] in m;
    }
  }

  lemma LastHasNoParent(m: Revisions, w: seq<string>, i: nat)
    requires IsWalk(m, w) && CoversOnce(m, w) && i < |w|
    ensures m[w[i]].None? <==> w[i] == w[|w| - 1]
  {
    assert m[w[i]] == Next(w, i);
    assert i + 1 < |w| ==> w[i] != w[|w| - 1];
  }

  lemma OnlyFirstIsHead(m: Revisions, w: seq<string>)
    requires IsWalk(m, w) && CoversOnce(m, w)
    ensures Heads(m) == {w[0]}
  {
    forall r
      ensures r in Heads(m) <==> r == w[0]
    {
      ParentsOnPath(m, w, r);
      assert w[0] in m;
    }
  }

  /** The head of a covering walk is the only head, and its end the only base. */
  lemma PathHasOneHeadAndBase(m: Revisions, w: seq<string>)
    requires IsWalk(m, w) && CoversOnce(m, w)
    ensures Heads(m) == {w[0]} && SingleHead(m)
    ensures w[|w| - 1] in m && forall r :: r in m ==> (m[r].None? <==> r == w[|w| - 1])
  {
    OnlyFirstIsHead(m, w);
    forall r | r in m
      ensures m[r].None? <==> r == w[|w| - 1]
    {
      var i :| 0 <= i < |w| && w[i] == r;
      LastHasNoParent(m, w, i);
    }
  }

  lemma PathIsAcyclic(m: Revisions, w: seq<string>)
    requires IsWalk(m, w) && CoversOnce(m, w)
    ensures Acyclic(m) && NoDanglingParent(m)
  {
    var rank := DistanceToEnd(w);
    forall r | r in m
      ensures r in rank && (m[r].Some? ==> m[r].value in m && rank[m[r].value] < rank[r])
    {
      var i :| 0 <= i < |w| && w[i] == r;
      assert m[w[i]] == Next(w, i);
    }
    assert IsRank(m, rank);
  }

  lemma DistanceToEnd(w: seq<string>) returns (rank: map<string, nat>)
    requires forall i, j :: 0 <= i < j < |w| ==> w[i] != w[j]
    ensures forall i :: 0 <= i < |w| ==> w[i] in rank && rank[w[i]] == |w| - i
  {
    rank := map i | 0 <= i < |w| :: w[i] := |w| - i;
  }

  /**
   `single_head` means what it is read as exactly when no parent dangles and nothing cycles: then,
   and only then, walking down from the head runs through every revision once.
   */
  lemma SingleHeadMeansOnePath(m: Revisions)
    ensures OnePath(m) <==> SingleHead(m) && Acyclic(m) && NoDanglingParent(m)
  {
    if SingleHead(m) && Acyclic(m) && NoDanglingParent(m) {
      SinglePathFromHead(m);
    }
    if OnePath(m) {
      var w :| IsWalk(m, w) && CoversOnce(m, w);
      PathHasOneHeadAndBase(m, w);
      PathIsAcyclic(m, w);
    }
  }

  /** A cycle beside the chain goes unnoticed: it has no head of its own. */
  lemma CycleGoesUnnoticed()
    ensures var m: Revisions := map["a" := None, "b" := Some("c"), "c" := Some("b")];
            SingleHead(m) && NoDanglingParent(m) && !Acyclic(m)
  {
    var m: Revisions := map["a" := None, "b" := Some("c"), "c" := Some("b")];
    assert m["b"].value == "c" && m["c"].value == "b";
    assert Parents(m) == {"b", "c"};
    assert Heads(m) == {"a"};
    forall rank
      ensures !IsRank(m, rank)
    {
      assert "b" in m && m["b"] == Some("c");
      assert "c" in m && m["c"] == Some("b");
    }
  }
}
