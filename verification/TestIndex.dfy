/**
 The static index of test nodes (docs/audit/acceptance_semantic_scan.py:215-340): which Python
 symbols and which vitest or playwright titles a file offers, and which node ids therefore resolve.
 */
module TestNodes {
  import opened Wrappers
  import opened Text
  import opened Yaml

  /** What `ast` shows of a Python file: scopes (`def`, `async def`, `class`) and everything else. */
  datatype PyNode = Scope(name: string, body: seq<PyNode>) | Other(children: seq<PyNode>)

  /**
   A file of the tree: its `ast` (None for a syntax error) and the quoted title texts that the
   title expression finds in it, in order and still escaped.
   */
  datatype Source = Source(syntax: Option<seq<PyNode>>, quoted: seq<string>)

  type FileTree = map<string, Source>

  // ---- Python symbols

  type Chain = seq<string>

  /** The chains `walk` adds for these sibling nodes below the scope chain `prefix`. */
  function Symbols(nodes: seq<PyNode>, prefix: Chain): set<Chain>
    decreases nodes
  {
    if nodes == [] then {}
    else
      (match nodes[0]
       case Scope(name, body) => {prefix + [name]} + Symbols(body, prefix + [name])
       case Other(_) => {})
      + Symbols(nodes[1..], prefix)
  }

  /** `path` names scopes nested directly in one another, from the top of the file down. */
  ghost predicate IsChain(nodes: seq<PyNode>, path: Chain)
    decreases |path|
  {
    && path != []
    && exists i :: 0 <= i < |nodes| && ScopeAt(nodes, i, path[0])
                   && (|path| == 1 || IsChain(nodes[i].body, path[1..]))
  }

  predicate ScopeAt(nodes: seq<PyNode>, i: nat, name: string)
    requires i < |nodes|
  {
    nodes[i].Scope? && nodes[i].name == name
  }

  /** The set `walk` collects is exactly the set of directly nested scope chains. */
  lemma {:induction false} SymbolsAreChains(nodes: seq<PyNode>, prefix: Chain, path: Chain)
    ensures prefix + path in Symbols(nodes, prefix) <==> IsChain(nodes, path)
    decreases nodes
  {
    if nodes != [] {
      var rest := nodes[1..];
      SymbolsAreChains(rest, prefix, path);
      ChainSplit(nodes, path);
      match nodes[0]
      case Other(_) =>
      case Scope(name, body) =>
        SymbolsExtendPrefix(body, prefix + [name], prefix + path);
        if path != [] {
          assert (prefix + path)[|prefix|] == path[0];
          if path[0] == name {
            assert prefix + path == prefix + [name] + path[1..];
            SymbolsAreChains(body, prefix + [name], path[1..]);
            assert |path| == 1 ==> path[1..] == [];
            assert |path| == 1 ==> prefix + path == prefix + [name];
          }
        }
    } else {
      assert !IsChain(nodes, path);
    }
  }

  lemma ChainSplit(nodes: seq<PyNode>, path: Chain)
    requires nodes != []
    ensures IsChain(nodes, path) <==>
            || IsChain(nodes[1..], path)
            || (path != [] && ScopeAt(nodes, 0, path[0]) && (|path| == 1 || IsChain(nodes[0].body, path[1..])))
  {
    var rest := nodes[1..];
    if path != [] {
      forall i | 0 <= i < |rest|
        ensures rest[i] == nodes[i + 1] && ScopeAt(rest, i, path[0]) == ScopeAt(nodes, i + 1, path[0])
      {
      }
      if IsChain(nodes, path) {
        var i :| 0 <= i < |nodes| && ScopeAt(nodes, i, path[0])
                 && (|path| == 1 || IsChain(nodes[i].body, path[1..]));
        if i > 0 {
          assert ScopeAt(rest, i - 1, path[0]);
        }
      }
      if IsChain(rest, path) {
        var i :| 0 <= i < |rest| && ScopeAt(rest, i, path[0])
                 && (|path| == 1 || IsChain(rest[i].body, path[1..]));
        assert ScopeAt(nodes, i + 1, path[0]);
      }
    }
  }

  /** Every chain found below `prefix` extends it by at least one name. */
  lemma {:induction false} SymbolsExtendPrefix(nodes: seq<PyNode>, prefix: Chain, path: Chain)
    ensures path in Symbols(nodes, prefix) ==> |path| > |prefix| && path[..|prefix|] == prefix
    decreases nodes
  {
    if nodes != [] && path in Symbols(nodes, prefix) {
      SymbolsExtendPrefix(nodes[1..], prefix, path);
      if nodes[0].Scope? {
        var inner := prefix + [nodes[0].name];
        SymbolsExtendPrefix(nodes[0].body, inner, path);
        assert path in Symbols(nodes[0].body, inner) ==> path[..|prefix|] == path[..|inner|][..|prefix|];
      }
    }
  }

  /** A symbol's enclosing scopes are symbols too. */
  lemma {:induction false} ChainsArePrefixClosed(nodes: seq<PyNode>, path: Chain, k: nat)
    requires IsChain(nodes, path) && 0 < k <= |path|
    ensures IsChain(nodes, path[..k])
    decreases |path|
  {
    var i :| 0 <= i < |nodes| && ScopeAt(nodes, i, path[0])
             && (|path| == 1 || IsChain(nodes[i].body, path[1..]));
    if k > 1 {
      ChainsArePrefixClosed(nodes[i].body, path[1..], k - 1);
      assert path[..k][1..] == path[1..][..k - 1];
    }
    assert ScopeAt(nodes, i, path[..k][0]);
  }

  /** `walk`: add the chains of `nodes` to `found`. */
  method Walk(nodes: seq<PyNode>, prefix: Chain, found: set<Chain>) returns (all: set<Chain>)
    ensures all == found + Symbols(nodes, prefix)
    decreases nodes
  {
    all := found;
    var i := 0;
    while i < |nodes|
      invariant 0 <= i <= |nodes|
      invariant all + Symbols(nodes[i..], prefix) == found + Symbols(nodes, prefix)
    {
      var child := nodes[i];
      assert nodes[i..][1..] == nodes[i + 1..];
      if child.Scope? {
        var path := prefix + [child.name];
        all := all + {path};
        all := Walk(child.body, path, all);
      }
      i := i + 1;
    }
  }

  function PythonSymbolsOf(tree: FileTree, rel: string): set<Chain>
  {
    if rel in tree && tree[rel].syntax.Some? then Symbols(tree[rel].syntax.value, []) else {}
  }

  // ---- vitest and playwright titles

  /** An interpolated title, cut at its `${...}` holes: the literal parts in order. */
  type Template = parts: seq<string> | parts != [] witness [""]

  datatype Titles = Titles(literals: set<string>, patterns: seq<Template>)

  /** Replace each backslash escape by the escaped character (which is never a newline). */
  function Unescape(t: string): string
  {
    if |t| < 2 then t
    else if t[0] == '\\' && t[1] != '\n' then [t[1]] + Unescape(t[2..])
    else [t[0]] + Unescape(t[1..])
  }

  /** Cut at every hole: a `${` with a closing brace somewhere behind it, up to the first one. */
  function Cut(raw: string): Template
    decreases |raw|
  {
    match Find(raw, "${")
    case None => [raw]
    case Some(i) =>
      match Find(raw[i + 2..], "}")
      case None => [raw]
      case Some(j) => [raw[..i]] + Cut(raw[i + 2 + j + 1..])
  }

  function TitleStep(titles: Titles, quoted: string): Titles
  {
    var raw := Unescape(quoted);
    if !Contains(raw, "${") then titles.(literals := titles.literals + {raw})
    else if forall part :: part in Cut(raw) ==> Strip(part) == "" then titles
    else titles.(patterns := titles.patterns + [Cut(raw)])
  }

  function TitlesOf(quoted: seq<string>): Titles
  {
    if quoted == [] then Titles({}, [])
    else TitleStep(TitlesOf(quoted[..|quoted| - 1]), quoted[|quoted| - 1])
  }

  function JsTitlesOf(tree: FileTree, rel: string): Titles
  {
    if rel in tree then TitlesOf(tree[rel].quoted) else Titles({}, [])
  }

  /**
   The backtracking matcher for `^part.+?part...part$`, with `.` any character but a newline. The
   segments it is given are stripped, so `$` can only mean the end of the segment.
   */
  predicate Accepts(parts: Template, s: string)
    decreases |parts|, |s| + 1
  {
    if |parts| == 1 then s == parts[0]
    else StartsWith(s, parts[0]) && AcceptsAfterGap(parts[1..], s[|parts[0]|..], 1)
  }

  /** Try the gap lengths from `k` upwards. */
  predicate AcceptsAfterGap(parts: Template, s: string, k: nat)
    decreases |parts|, |s| + 2, |s| + 1 - k
  {
    && k <= |s|
    && '\n' !in s[..k]
    && (Accepts(parts, s[k..]) || AcceptsAfterGap(parts, s, k + 1))
  }

  predicate IsFiller(f: string)
  {
    f != "" && '\n' !in f
  }

  predicate AreFillers(fillers: seq<string>)
  {
    forall f :: f in fillers ==> IsFiller(f)
  }

  /** The title a template turns into when its holes are filled. */
  function Instantiate(parts: Template, fillers: seq<string>): string
    requires |fillers| == |parts| - 1
    decreases |parts|
  {
    if |parts| == 1 then parts[0]
    else parts[0] + (fillers[0] + Instantiate(parts[1..], fillers[1..]))
  }

  ghost predicate IsInstance(parts: Template, s: string)
  {
    exists fillers :: |fillers| == |parts| - 1 && AreFillers(fillers) && s == Instantiate(parts, fillers)
  }

  /** A segment is accepted exactly when it is the template with non-empty one-line fillings. */
  lemma AcceptsExactlyInstances(parts: Template, s: string)
    ensures Accepts(parts, s) <==> IsInstance(parts, s)
  {
    if Accepts(parts, s) {
      var fillers := FillersOf(parts, s);
    }
    if IsInstance(parts, s) {
      var fillers :| |fillers| == |parts| - 1 && AreFillers(fillers) && s == Instantiate(parts, fillers);
      InstancesAccepted(parts, fillers);
    }
  }

  lemma {:induction false} InstancesAccepted(parts: Template, fillers: seq<string>)
    requires |fillers| == |parts| - 1 && AreFillers(fillers)
    ensures Accepts(parts, Instantiate(parts, fillers))
    decreases |parts|
  {
    if |parts| > 1 {
      var tail := Instantiate(parts[1..], fillers[1..]);
      var s := fillers[0] + tail;
      assert IsFiller(fillers[0]);
      assert forall f :: f in fillers[1..] ==> f in fillers;
      InstancesAccepted(parts[1..], fillers[1..]);
      assert s[|fillers[0]|..] == tail;
      GapFound(parts[1..], s, |fillers[0]|, 1);
      assert Instantiate(parts, fillers)[|parts[0]|..] == s;
    }
  }

  lemma {:induction false} GapFound(parts: Template, s: string, gap: nat, k: nat)
    requires k <= gap <= |s| && '\n' !in s[..gap] && Accepts(parts, s[gap..])
    ensures AcceptsAfterGap(parts, s, k)
    decreases gap - k
  {
    assert forall c :: c in s[..k] ==> c in s[..gap];
    if k < gap {
      GapFound(parts, s, gap, k + 1);
    }
  }

  lemma {:induction false} FillersOf(parts: Template, s: string) returns (fillers: seq<string>)
    requires Accepts(parts, s)
    ensures |fillers| == |parts| - 1 && AreFillers(fillers) && s == Instantiate(parts, fillers)
    decreases |parts|
  {
    if |parts| == 1 {
      fillers := [];
    } else {
      var rest := s[|parts[0]|..];
      var gap := GapOf(parts[1..], rest, 1);
      var others := FillersOf(parts[1..], rest[gap..]);
      fillers := [rest[..gap]] + others;
      assert fillers[1..] == others;
      assert s == parts[0] + (rest[..gap] + rest[gap..]);
    }
  }

  lemma {:induction false} GapOf(parts: Template, s: string, k: nat) returns (gap: nat)
    requires AcceptsAfterGap(parts, s, k)
    ensures k <= gap <= |s| && '\n' !in s[..gap] && Accepts(parts, s[gap..])
    decreases |s| + 1 - k
  {
    if Accepts(parts, s[k..]) {
      gap := k;
    } else {
      gap := GapOf(parts, s, k + 1);
    }
  }

  /** Each literal part of a template is found, unchanged, in everything the template accepts. */
  lemma {:induction false} InstancesKeepEveryPart(parts: Template, fillers: seq<string>, k: nat)
    requires |fillers| == |parts| - 1 && k < |parts|
    ensures Occurs(Instantiate(parts, fillers), parts[k])
    decreases |parts|
  {
    var whole := Instantiate(parts, fillers);
    if k == 0 {
      assert OccursAt(whole, parts[0], 0);
    } else {
      InstancesKeepEveryPart(parts[1..], fillers[1..], k - 1);
      var tail := Instantiate(parts[1..], fillers[1..]);
      var i :| OccursAt(tail, parts[k], i);
      var skip := |parts[0]| + |fillers[0]|;
      assert whole[skip..] == tail;
      assert whole[skip + i..skip + i + |parts[k]|] == tail[i..i + |parts[k]|];
      assert OccursAt(whole, parts[k], skip + i);
    }
  }

  /**
   No stored pattern accepts every title: it has a non-blank part, every accepted title contains
   that part, and so at least the empty title is refused.
   */
  lemma {:induction false} NoPatternAcceptsEverything(quoted: seq<string>, i: nat)
    requires i < |TitlesOf(quoted).patterns|
    ensures var parts := TitlesOf(quoted).patterns[i];
            && !Accepts(parts, "")
            && exists part :: part in parts && !Blank(part) && forall s :: Accepts(parts, s) ==> Occurs(s, part)
  {
    var last := |quoted| - 1;
    var before := TitlesOf(quoted[..last]);
    if i < |before.patterns| {
      NoPatternAcceptsEverything(quoted[..last], i);
    } else {
      var parts := TitlesOf(quoted).patterns[i];
      var part :| part in parts && Strip(part) != "";
      StripEmpty(part);
      var k :| 0 <= k < |parts| && parts[k] == part;
      forall s | Accepts(parts, s)
        ensures Occurs(s, part)
      {
        var fillers := FillersOf(parts, s);
        InstancesKeepEveryPart(parts, fillers, k);
      }
      assert !Occurs("", part);
    }
  }

  // ---- node ids

  datatype Reason =
    | EmptyNodeId
    | NoSelector
    | FileMissing(path: string)
    | PythonSeparator
    | NoSuchSymbol(path: string, chain: Chain)
    | JavascriptSeparator
    | NoSuchTitle(path: string, title: string)

  /** From here on the text is `[`, anything on one line, `]`, and at most a final newline. */
  predicate IsParameters(s: string)
  {
    && |s| >= 2 && s[0] == '['
    && var body := if s[|s| - 1] == '\n' then s[..|s| - 1] else s;
       body[|body| - 1] == ']' && '\n' !in body && |body| >= 2
  }

  /** Drop the leftmost `[...]` that reaches the end of the segment. */
  function DropParameters(s: string): string
  {
    if s == "" then ""
    else if IsParameters(s) then (if s[|s| - 1] == '\n' then "\n" else "")
    else [s[0]] + DropParameters(s[1..])
  }

  function PythonChain(segments: seq<string>): Chain
  {
    seq(|segments|, i requires 0 <= i < |segments| => Strip(DropParameters(segments[i])))
  }

  predicate TitleKnown(titles: Titles, title: string)
  {
    title in titles.literals || exists i :: 0 <= i < |titles.patterns| && Accepts(titles.patterns[i], title)
  }

  /** The verdict on the titles from position `i` on: the first unknown one is named. */
  function FirstUnknownTitle(path: string, titles: Titles, segments: seq<string>, i: nat): Option<Reason>
    requires i <= |segments|
    decreases |segments| - i
  {
    if i == |segments| then None
    else if TitleKnown(titles, Strip(segments[i])) then FirstUnknownTitle(path, titles, segments, i + 1)
    else Some(NoSuchTitle(path, Strip(segments[i])))
  }

  /** The node id up to its first `::`, or else up to its first ` > `, before stripping. */
  function FilePart(node: string): Option<string>
  {
    match Partition(node, "::")
    case Some(halves) => Some(halves.before)
    case None =>
      match Partition(node, " > ")
      case Some(halves) => Some(halves.before)
      case None => None
  }

  /** `TestIndex.resolve` computed directly from the tree: None, or the reason it does not resolve. */
  function Resolve(tree: FileTree, node: Yaml): Option<Reason>
  {
    if !node.Str? || Strip(node.s) == "" then Some(EmptyNodeId)
    else
      match Partition(node.s, "::")
      case Some(halves) => ResolveIn(tree, Strip(halves.before), Split(halves.after, "::"), true)
      case None =>
        match Partition(node.s, " > ")
        case Some(halves) => ResolveIn(tree, Strip(halves.before), Split(halves.after, " > "), false)
        case None => Some(NoSelector)
  }

  function ResolveIn(tree: FileTree, path: string, segments: seq<string>, colons: bool): Option<Reason>
  {
    if path !in tree then Some(FileMissing(path))
    else if EndsWith(path, ".py") then
      if !colons then Some(PythonSeparator)
      else if PythonChain(segments) in PythonSymbolsOf(tree, path) then None
      else Some(NoSuchSymbol(path, PythonChain(segments)))
    else if colons then Some(JavascriptSeparator)
    else FirstUnknownTitle(path, JsTitlesOf(tree, path), segments, 0)
  }

  predicate Resolves(tree: FileTree, node: Yaml)
  {
    Resolve(tree, node).None?
  }

  /** The quoted title `q` can be reported as `title`: literally, or as a filled-in template. */
  ghost predicate Reports(q: string, title: string)
  {
    var raw := Unescape(q);
    if !Contains(raw, "${") then raw == title
    else IsInstance(Cut(raw), title) && exists part :: part in Cut(raw) && !Blank(part)
  }

  lemma TitleStepExact(titles: Titles, q: string, title: string)
    ensures TitleKnown(TitleStep(titles, q), title) <==> TitleKnown(titles, title) || Reports(q, title)
  {
    var raw := Unescape(q);
    var after := TitleStep(titles, q);
    if Contains(raw, "${") {
      AcceptsExactlyInstances(Cut(raw), title);
      forall part | part in Cut(raw)
        ensures Strip(part) == "" <==> Blank(part)
      {
        StripEmpty(part);
      }
      if after.patterns != titles.patterns {
        var n := |titles.patterns|;
        assert after.patterns[n] == Cut(raw);
        assert forall i :: 0 <= i < n ==> after.patterns[i] == titles.patterns[i];
      }
    }
  }

  /** The titles that resolve are exactly those one of the quoted titles can be reported as. */
  lemma {:induction false} TitleKnownExactly(quoted: seq<string>, title: string)
    ensures TitleKnown(TitlesOf(quoted), title) <==> exists q :: q in quoted && Reports(q, title)
  {
    if quoted != [] {
      var init, last := quoted[..|quoted| - 1], quoted[|quoted| - 1];
      assert quoted == init + [last];
      TitleKnownExactly(init, title);
      TitleStepExact(TitlesOf(init), last, title);
    }
  }

  lemma {:induction false} FirstUnknownNone(path: string, titles: Titles, segments: seq<string>, i: nat)
    requires i <= |segments|
    ensures FirstUnknownTitle(path, titles, segments, i).None? <==>
            forall k :: i <= k < |segments| ==> TitleKnown(titles, Strip(segments[k]))
    decreases |segments| - i
  {
    if i < |segments| {
      FirstUnknownNone(path, titles, segments, i + 1);
    }
  }

  /**
   What a resolving node id promises: its file exists, and it names a chain of directly nested
   Python scopes, or each of its titles is one the file can report.
   */
  ghost predicate NamesRealTest(tree: FileTree, node: string)
  {
    match Partition(node, "::")
    case Some(halves) =>
      var path := Strip(halves.before);
      && path in tree && EndsWith(path, ".py") && tree[path].syntax.Some?
      && IsChain(tree[path].syntax.value, PythonChain(Split(halves.after, "::")))
    case None =>
      match Partition(node, " > ")
      case None => false
      case Some(halves) =>
        var path := Strip(halves.before);
        && path in tree && !EndsWith(path, ".py")
        && AllReported(tree[path].quoted, Split(halves.after, " > "))
  }

  ghost predicate AllReported(quoted: seq<string>, segments: seq<string>)
  {
    forall k :: 0 <= k < |segments| ==> exists q :: q in quoted && Reports(q, Strip(segments[k]))
  }

  lemma AllKnownExactly(path: string, quoted: seq<string>, segments: seq<string>)
    ensures FirstUnknownTitle(path, TitlesOf(quoted), segments, 0).None? <==> AllReported(quoted, segments)
  {
    var titles := TitlesOf(quoted);
    FirstUnknownNone(path, titles, segments, 0);
    forall k | 0 <= k < |segments|
      ensures TitleKnown(titles, Strip(segments[k])) <==>
              exists q :: q in quoted && Reports(q, Strip(segments[k]))
    {
      TitleKnownExactly(quoted, Strip(segments[k]));
    }
  }

  /** A node id resolves exactly when it is not blank and names a real test. */
  lemma ResolvesExactly(tree: FileTree, node: Yaml)
    ensures Resolves(tree, node) <==> node.Str? && !Blank(node.s) && NamesRealTest(tree, node.s)
  {
    if node.Str? {
      StripEmpty(node.s);
      match Partition(node.s, "::")
      case Some(halves) =>
        var path, chain := Strip(halves.before), PythonChain(Split(halves.after, "::"));
        if path in tree && tree[path].syntax.Some? {
          SymbolsAreChains(tree[path].syntax.value, [], chain);
          assert [] + chain == chain;
        }
      case None =>
        match Partition(node.s, " > ")
        case None =>
        case Some(halves) =>
          var path := Strip(halves.before);
          if path in tree {
            AllKnownExactly(path, tree[path].quoted, Split(halves.after, " > "));
          }
    }
  }

  // ---- the second node-id parser

  /** `_node_path`: the file part of a node id, or "" when the entry is not a node id. */
  function NodePath(node: Yaml): string
  {
    if node.Str? then Strip(Split(Split(node.s, "::")[0], " > ")[0]) else ""
  }

  lemma SplitHead(s: string, sep: string)
    requires sep != ""
    ensures Split(s, sep)[0] == match Partition(s, sep) case Some(halves) => halves.before case None => s
  {
  }

  /** The path `resolve` opens for a node id with a selector. */
  function OpenedPath(node: string): string
  {
    match FilePart(node)
    case Some(part) => Strip(part)
    case None => ""
  }

  /** Cutting a text in front of a `>` changes what stripping leaves of it. */
  lemma CutBeforeMark(q: string, tail: string)
    requires '>' in tail
    ensures Strip(q) != Strip(q + tail)
  {
    var p := q + tail;
    var from, to := StripSpec(p);
    var from', to' := StripSpec(q);
    var at :| 0 <= at < |tail| && tail[at] == '>';
    assert p[|q| + at] == '>';
    assert forall k :: 0 <= k < |q| ==> q[k] == p[k];
    assert from <= |q| + at < to;
  }

  lemma ResolvingOpensFile(tree: FileTree, node: string)
    requires Resolves(tree, Str(node))
    ensures FilePart(node).Some? && OpenedPath(node) in tree
  {
    hide Strip, Split, PythonSymbolsOf, JsTitlesOf, FirstUnknownTitle, PythonChain, Partition;
  }

  lemma ParsersAgreeOnPart(node: string)
    requires FilePart(node).Some?
    ensures NodePath(Str(node)) == Strip(FilePart(node).value) <==> !Contains(FilePart(node).value, " > ")
  {
    hide Strip, Split, Contains, Partition;
    SplitHead(node, "::");
    match Partition(node, "::")
    case Some(halves) =>
      var part := halves.before;
      SplitHead(part, " > ");
      PartitionSpec(part, " > ");
      if Partition(part, " > ").Some? {
        var inner := Partition(part, " > ").value;
        var tail := " > " + inner.after;
        assert tail[1] == '>';
        assert part == inner.before + tail;
        CutBeforeMark(inner.before, tail);
      }
    case None =>
      SplitHead(node, " > ");
      PartitionSpec(node, " > ");
  }

  /**
   The two node-id parsers agree on a resolving node id exactly when the text in front of its
   selector contains no " > ": then the evidence-type and axis rules judge the very file that was
   resolved.
   */
  lemma ParsersAgreeExactly(tree: FileTree, node: string)
    requires Resolves(tree, Str(node))
    ensures FilePart(node).Some? && OpenedPath(node) in tree
    ensures NodePath(Str(node)) == OpenedPath(node) <==> !Contains(FilePart(node).value, " > ")
  {
    ResolvingOpensFile(tree, node);
    ParsersAgreeOnPart(node);
  }

  lemma OddNodeCut()
    ensures Partition(" > t.py::f", "::") == Some(Halves(" > t.py", "f"))
  {
    var node := " > t.py::f";
    var name := " > t.py";
    assert node == name + "::f";
    forall k | 0 <= k < 7
      ensures !OccursAt(node, "::", k)
    {
      OccurrenceAt(node, "::", k, 0);
      assert node[k] == name[k] != ':';
    }
    assert node[7..9] == "::";
    FindIs(node, "::", 7);
    assert node[..7] == name && node[9..] == "f";
  }

  lemma OddNameStripped()
    ensures Strip(" > t.py") == "> t.py"
    ensures Partition(" > t.py", " > ") == Some(Halves("", "t.py"))
    ensures !Contains("> t.py", " > ")
  {
    var name := " > t.py";
    assert name[1..] == "> t.py";
    assert LStrip(name) == "> t.py";
    FindIs(name, " > ", 0);
    assert name[..0] == "" && name[3..] == "t.py";
    FindSpec("> t.py", " > ");
    forall k
      ensures !OccursAt("> t.py", " > ", k)
    {
      OccurrenceAt("> t.py", " > ", k, 1);
    }
  }

  const ODD_TREE: FileTree := map["> t.py" := Source(Some([Scope("f", [])]), [])]

  lemma OddNodeResolves()
    ensures ResolveIn(ODD_TREE, "> t.py", Split("f", "::"), true).None?
  {
    assert Find("f", "::").None?;
    assert Split("f", "::") == ["f"];
    assert "f"[1..] == "";
    assert DropParameters("f") == "f";
    assert LStrip("f") == RStrip("f") == "f";
    assert PythonChain(["f"]) == ["f"];
    assert "> t.py"[3..] == ".py";
    var file := [Scope("f", [])];
    assert file[1..] == [] && [] + ["f"] == ["f"];
    assert ["f"] in Symbols(file, []);
  }

  /** A file name that merely starts with "> " already separates the two parsers. */
  lemma ParsersCanDisagree()
    ensures Resolves(ODD_TREE, Str(" > t.py::f"))
    ensures OpenedPath(" > t.py::f") == "> t.py" && !Contains("> t.py", " > ")
    ensures NodePath(Str(" > t.py::f")) == ""
  {
    OddNodeCut();
    OddNameStripped();
    OddNodeResolves();
    OddNodePath();
    StripEmpty(" > t.py::f");
    assert " > t.py::f"[1] == '>';
    hide Partition, ResolveIn, Split, NodePath, ODD_TREE, Contains, Strip;
  }

  lemma OddNodePath()
    ensures NodePath(Str(" > t.py::f")) == ""
  {
    OddNodeCut();
    OddNameStripped();
    SplitHead(" > t.py::f", "::");
    SplitHead(" > t.py", " > ");
    assert Strip("") == "";
    hide Partition, Split, Contains, Strip;
  }
}

module TestIndex {
  import opened Wrappers
  import opened Text
  import opened Yaml
  import opened TestNodes

  /** The index with its two memo caches, over a fixed file tree. */
  class TestIndex {
    const tree: FileTree
    var pySymbols: map<string, set<Chain>>
    var jsTitles: map<string, Titles>

    /** What is cached is what parsing the file again would give. */
    ghost predicate Valid()
      reads this
    {
      && (forall rel :: rel in pySymbols ==> pySymbols[rel] == PythonSymbolsOf(tree, rel))
      && (forall rel :: rel in jsTitles ==> jsTitles[rel] == JsTitlesOf(tree, rel))
    }

    constructor (tree: FileTree)
      ensures Valid() && this.tree == tree && pySymbols == map[] && jsTitles == map[]
    {
      this.tree := tree;
      pySymbols := map[];
      jsTitles := map[];
    }

    predicate FileExists(rel: string)
    {
      rel in tree
    }

    method PythonSymbols(rel: string) returns (symbols: set<Chain>)
      requires Valid()
      modifies this`pySymbols
      ensures Valid()
      ensures symbols == PythonSymbolsOf(tree, rel)
      ensures pySymbols == old(pySymbols)[rel := symbols]
    {
      if rel !in pySymbols {
        if rel !in tree || tree[rel].syntax.None? {
          pySymbols := pySymbols[rel := {}];
          return pySymbols[rel];
        }
        var found := Walk(tree[rel].syntax.value, [], {});
        pySymbols := pySymbols[rel := found];
      }
      symbols := pySymbols[rel];
    }

    method JsTestTitles(rel: string) returns (titles: Titles)
      requires Valid()
      modifies this`jsTitles
      ensures Valid()
      ensures titles == JsTitlesOf(tree, rel)
      ensures jsTitles == old(jsTitles)[rel := titles]
    {
      if rel !in jsTitles {
        if rel !in tree {
          jsTitles := jsTitles[rel := Titles({}, [])];
          return jsTitles[rel];
        }
        var quoted := tree[rel].quoted;
        var literals: set<string>, patterns: seq<Template> := {}, [];
        for i := 0 to |quoted|
          invariant Titles(literals, patterns) == TitlesOf(quoted[..i])
        {
          assert quoted[..i + 1][..i] == quoted[..i];
          var raw := Unescape(quoted[i]);
          if !Contains(raw, "${") {
            literals := literals + {raw};
            continue;
          }
          var parts := Cut(raw);
          if forall part :: part in parts ==> Strip(part) == "" {
            continue;
          }
          patterns := patterns + [parts];
        }
        assert quoted[..|quoted|] == quoted;
        jsTitles := jsTitles[rel := Titles(literals, patterns)];
      }
      titles := jsTitles[rel];
    }

    /** The memoised answer is always the one a fresh parse gives. */
    method Resolve(node: Yaml) returns (reason: Option<Reason>)
      requires Valid()
      modifies this
      ensures Valid()
      ensures reason == TestNodes.Resolve(tree, node)
    {
      if !node.Str? || Strip(node.s) == "" {
        return Some(EmptyNodeId);
      }
      var path: string, segments: seq<string>, colons: bool;
      match Partition(node.s, "::") {
        case Some(halves) =>
          path, segments, colons := halves.before, Split(halves.after, "::"), true;
        case None =>
          match Partition(node.s, " > ") {
            case Some(halves) =>
              path, segments, colons := halves.before, Split(halves.after, " > "), false;
            case None =>
              return Some(NoSelector);
          }
      }
      path := Strip(path);
      if !FileExists(path) {
        return Some(FileMissing(path));
      }
      if EndsWith(path, ".py") {
        if !colons {
          return Some(PythonSeparator);
        }
        var chain := PythonChain(segments);
        var symbols := PythonSymbols(path);
        if chain in symbols {
          return None;
        }
        return Some(NoSuchSymbol(path, chain));
      }
      if colons {
        return Some(JavascriptSeparator);
      }
      var titles := JsTestTitles(path);
      for i := 0 to |segments|
        invariant FirstUnknownTitle(path, titles, segments, 0) == FirstUnknownTitle(path, titles, segments, i)
      {
        var segment := Strip(segments[i]);
        if segment in titles.literals {
          continue;
        }
        if exists p :: 0 <= p < |titles.patterns| && Accepts(titles.patterns[p], segment) {
          continue;
        }
        return Some(NoSuchTitle(path, segment));
      }
      reason := None;
    }

    /** Any sequence of calls answers as if nothing had been remembered between them. */
    method ResolveAll(nodes: seq<Yaml>) returns (reasons: seq<Option<Reason>>)
      requires Valid()
      modifies this
      ensures Valid()
      ensures |reasons| == |nodes|
      ensures forall i :: 0 <= i < |nodes| ==> reasons[i] == TestNodes.Resolve(tree, nodes[i])
    {
      reasons := [];
      for i := 0 to |nodes|
        invariant Valid() && |reasons| == i
        invariant forall k :: 0 <= k < i ==> reasons[k] == TestNodes.Resolve(tree, nodes[k])
      {
        var reason := Resolve(nodes[i]);
        reasons := reasons + [reason];
      }
    }
  }
}
