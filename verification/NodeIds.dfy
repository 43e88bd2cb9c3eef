/**
 Node ids and titles from the writing side: what an author puts together, the resolver takes apart again
 (docs/audit/acceptance_semantic_scan.py:225-365).
 */
module NodeIds {
  import opened Wrappers
  import opened Text
  import opened Yaml
  import opened TestNodes

  // ---- parameters

  /** A segment as pytest reports it: a name, and the parameters in brackets. */
  function WithParameters(name: string, parameters: string): string
  {
    name + "[" + parameters + "]"
  }

  /** The brackets of a parametrized id are dropped, with everything in them. */
  lemma {:induction false} ParametersDropped(name: string, parameters: string)
    requires '[' !in name && '\n' !in parameters
    ensures DropParameters(WithParameters(name, parameters)) == name
  {
    var s := WithParameters(name, parameters);
    if name == "" {
      assert s[|s| - 1] == ']';
    } else {
      assert s[0] == name[0] && s[1..] == WithParameters(name[1..], parameters);
      ParametersDropped(name[1..], parameters);
    }
  }

  /** A segment without an opening bracket keeps every character. */
  lemma {:induction false} NoParameters(name: string)
    requires '[' !in name
    ensures DropParameters(name) == name
  {
    if name != "" {
      NoParameters(name[1..]);
    }
  }

  /** Brackets that do not end the segment are part of the name. */
  lemma {:induction false} OtherBracketsStay(s: string)
    requires s == "" || (s[|s| - 1] != ']' && !(|s| >= 2 && s[|s| - 1] == '\n' && s[|s| - 2] == ']'))
    ensures DropParameters(s) == s
  {
    if s != "" {
      OtherBracketsStay(s[1..]);
    }
  }

  // ---- why a node id does not resolve

  /** What each reason says of the node id and the tree. */
  ghost predicate Because(tree: FileTree, node: Yaml, reason: Reason)
  {
    if !node.Str? || Blank(node.s) then reason == EmptyNodeId
    else
      match Partition(node.s, "::")
      case Some(halves) => BecauseIn(tree, Strip(halves.before), Split(halves.after, "::"), true, reason)
      case None =>
        match Partition(node.s, " > ")
        case Some(halves) => BecauseIn(tree, Strip(halves.before), Split(halves.after, " > "), false, reason)
        case None => reason == NoSelector
  }

  ghost predicate BecauseIn(tree: FileTree, path: string, segments: seq<string>, colons: bool, reason: Reason)
  {
    if path !in tree then reason == FileMissing(path)
    else if |path| >= 3 && path[|path| - 3..] == ".py" then
      if !colons then reason == PythonSeparator
      else
        && reason == NoSuchSymbol(path, PythonChain(segments))
        && !(tree[path].syntax.Some? && IsChain(tree[path].syntax.value, PythonChain(segments)))
    else if colons then reason == JavascriptSeparator
    else reason.NoSuchTitle? && reason.path == path && FirstUnreported(tree[path].quoted, segments, reason.title)
  }

  /** The title is that of the first segment the file cannot report. */
  ghost predicate FirstUnreported(quoted: seq<string>, segments: seq<string>, title: string)
  {
    exists k :: 0 <= k < |segments| && title == Strip(segments[k]) && !Reportable(quoted, title)
                && forall j :: 0 <= j < k ==> Reportable(quoted, Strip(segments[j]))
  }

  ghost predicate Reportable(quoted: seq<string>, title: string)
  {
    exists q :: q in quoted && Reports(q, title)
  }

  lemma {:induction false} FirstUnknownIs(path: string, quoted: seq<string>, segments: seq<string>, i: nat)
    requires i <= |segments| && forall j :: 0 <= j < i ==> Reportable(quoted, Strip(segments[j]))
    requires FirstUnknownTitle(path, TitlesOf(quoted), segments, i).Some?
    ensures var reason := FirstUnknownTitle(path, TitlesOf(quoted), segments, i).value;
            reason.NoSuchTitle? && reason.path == path && FirstUnreported(quoted, segments, reason.title)
    decreases |segments| - i
  {
    hide TitleKnown, Strip, TitlesOf, Reports;
    TitleKnownExactly(quoted, Strip(segments[i]));
    if TitleKnown(TitlesOf(quoted), Strip(segments[i])) {
      FirstUnknownIs(path, quoted, segments, i + 1);
    } else {
      assert !Reportable(quoted, Strip(segments[i]));
    }
  }

  lemma RefusedIn(tree: FileTree, path: string, segments: seq<string>, colons: bool)
    ensures ResolveIn(tree, path, segments, colons).Some? ==>
              BecauseIn(tree, path, segments, colons, ResolveIn(tree, path, segments, colons).value)
  {
    if path in tree {
      if tree[path].syntax.Some? {
        SymbolsAreChains(tree[path].syntax.value, [], PythonChain(segments));
        assert [] + PythonChain(segments) == PythonChain(segments);
      }
      if FirstUnknownTitle(path, TitlesOf(tree[path].quoted), segments, 0).Some? {
        FirstUnknownIs(path, tree[path].quoted, segments, 0);
      }
    }
    hide FirstUnknownTitle, FirstUnreported, PythonChain, Symbols, IsChain, TitlesOf;
  }

  /** A node id that does not resolve is refused for its true reason. */
  lemma RefusedBecause(tree: FileTree, node: Yaml)
    ensures Resolve(tree, node).Some? ==> Because(tree, node, Resolve(tree, node).value)
  {
    hide Strip, Split, Partition, ResolveIn, BecauseIn, Blank;
    if node.Str? {
      StripEmpty(node.s);
      match Partition(node.s, "::")
      case Some(halves) => RefusedIn(tree, Strip(halves.before), Split(halves.after, "::"), true);
      case None =>
        match Partition(node.s, " > ")
        case Some(halves) => RefusedIn(tree, Strip(halves.before), Split(halves.after, " > "), false);
        case None =>
    }
  }

  // ---- pytest ids

  /** A name as Python allows it: no colon, no bracket, no white space at its ends. */
  predicate IsPlain(name: string)
  {
    ':' !in name && '[' !in name && Strip(name) == name
  }

  function Segments(names: seq<string>, brackets: string): (segments: seq<string>)
    requires names != []
    ensures segments != []
  {
    names[..|names| - 1] + [names[|names| - 1] + brackets]
  }

  /** `path::Class::function`, the last name with the given brackets behind it, if any. */
  function PytestId(path: string, names: seq<string>, brackets: string): string
    requires names != []
  {
    path + "::" + Join(Segments(names, brackets), "::")
  }

  predicate AreBrackets(brackets: string)
  {
    brackets == "" || (|brackets| >= 2 && brackets[0] == '[' && brackets[|brackets| - 1] == ']'
                       && ':' !in brackets && '\n' !in brackets)
  }

  lemma BracketsDropped(name: string, brackets: string)
    requires IsPlain(name) && AreBrackets(brackets)
    ensures Strip(DropParameters(name + brackets)) == name && ':' !in name + brackets
  {
    if brackets == "" {
      NoParameters(name);
      assert name + brackets == name;
    } else {
      var inner := brackets[1..|brackets| - 1];
      assert name + brackets == WithParameters(name, inner);
      ParametersDropped(name, inner);
    }
  }

  lemma PytestSegments(names: seq<string>, brackets: string)
    requires names != [] && AreBrackets(brackets) && forall name :: name in names ==> IsPlain(name)
    ensures Split(Join(Segments(names, brackets), "::"), "::") == Segments(names, brackets)
    ensures PythonChain(Segments(names, brackets)) == names
  {
    var n := |names| - 1;
    var segments := Segments(names, brackets);
    hide Strip, DropParameters;
    forall k | 0 <= k <= n
      ensures Strip(DropParameters(segments[k])) == names[k] && ':' !in segments[k]
    {
      assert names[k] in names;
      BracketsDropped(names[k], if k == n then brackets else "");
      assert k < n ==> names[k] + "" == names[k];
    }
    forall k | 0 <= k <= n
      ensures CutFirst(segments[k], "::") && !Contains(segments[k], "::")
    {
      CutBehind(segments[k], "::");
    }
    hide Contains, CutFirst;
    SplitOfJoin(segments, "::");
    assert PythonChain(segments) == names;
  }

  lemma ColonsCut(path: string, tail: string)
    requires ':' !in path
    ensures Partition(path + "::" + tail, "::") == Some(Halves(path, tail))
  {
    CutBehind(path, "::");
    FirstStays(path, "::", tail);
    var node := path + "::" + tail;
    assert node[..|path|] == path && node[|path| + 2..] == tail;
  }

  /**
   The node id of a Python test resolves if and only if its file parses and the names are defs and classes
   nested directly in one another there; parameters in brackets make no difference.
   */
  lemma PytestIdResolves(tree: FileTree, path: string, names: seq<string>, brackets: string)
    requires path != "" && ':' !in path && Strip(path) == path && |path| >= 3 && path[|path| - 3..] == ".py"
    requires names != [] && AreBrackets(brackets) && forall name :: name in names ==> IsPlain(name)
    ensures Resolves(tree, Str(PytestId(path, names, brackets))) <==>
            path in tree && tree[path].syntax.Some? && IsChain(tree[path].syntax.value, names)
  {
    hide *;
    var segments, node := Segments(names, brackets), PytestId(path, names, brackets);
    PytestSegments(names, brackets);
    PytestParts(path, names, brackets);
    NamesPythonTest(tree, node, path, Join(segments, "::"));
    ResolvesStr(tree, node);
  }

  lemma ResolvesStr(tree: FileTree, node: string)
    requires !Blank(node)
    ensures Resolves(tree, Str(node)) <==> NamesRealTest(tree, node)
  {
    ResolvesExactly(tree, Str(node));
    hide *;
  }

  lemma PytestParts(path: string, names: seq<string>, brackets: string)
    requires path != "" && ':' !in path && Strip(path) == path && names != []
    ensures var node := PytestId(path, names, brackets);
            !Blank(node) && Partition(node, "::") == Some(Halves(path, Join(Segments(names, brackets), "::")))
  {
    hide Strip, Partition, Join, Segments, Blank;
    var tail := Join(Segments(names, brackets), "::");
    ColonsCut(path, tail);
    NotBlank(path, "::" + tail);
    assert path + "::" + tail == path + ("::" + tail);
  }

  lemma NamesPythonTest(tree: FileTree, node: string, path: string, tail: string)
    requires Partition(node, "::") == Some(Halves(path, tail)) && Strip(path) == path
    requires |path| >= 3 && path[|path| - 3..] == ".py"
    ensures NamesRealTest(tree, node) <==>
            path in tree && tree[path].syntax.Some? && IsChain(tree[path].syntax.value, PythonChain(Split(tail, "::")))
  {
    hide Strip, Split, Partition, PythonChain, IsChain;
  }

  lemma NotBlank(path: string, rest: string)
    requires path != "" && Strip(path) == path
    ensures !Blank(path + rest)
  {
    var from, to := StripSpec(path);
    assert path[0] == (path + rest)[0];
    assert (path + rest)[0] in path + rest;
  }

  // ---- vitest and playwright ids

  /** `path > describe > title`. */
  function VitestId(path: string, titles: seq<string>): string
    requires titles != []
  {
    path + " > " + Join(titles, " > ")
  }

  /** A title that is no separator itself and has no white space at its ends. */
  predicate IsTitle(title: string)
  {
    ':' !in title && '>' !in title && Strip(title) == title
  }

  /** Without a `>` in it, a part is cut at the leftmost place behind it. */
  lemma ArrowCut(part: string)
    requires '>' !in part
    ensures CutFirst(part, " > ") && !Contains(part, " > ")
  {
    var s := part + " > ";
    assert s[|part|..|part| + 3] == " > ";
    forall i | 0 <= i < |part|
      ensures !OccursAt(s, " > ", i) && !OccursAt(part, " > ", i)
    {
      OccurrenceAt(s, " > ", i, 1);
      OccurrenceAt(part, " > ", i, 1);
      if i + 1 < |part| {
        assert s[i + 1] == part[i + 1];
      }
    }
    FindIs(s, " > ", |part|);
    FindSpec(part, " > ");
  }

  lemma {:induction false} JoinKeepsOut(parts: seq<string>, sep: string, c: char)
    requires parts != [] && c !in sep && forall part :: part in parts ==> c !in part
    ensures c !in Join(parts, sep)
  {
    if |parts| > 1 {
      JoinKeepsOut(parts[1..], sep, c);
    }
  }

  lemma NoColons(s: string)
    requires ':' !in s
    ensures Partition(s, "::").None?
  {
    FindSpec(s, "::");
    forall i
      ensures !OccursAt(s, "::", i)
    {
      OccurrenceAt(s, "::", i, 0);
    }
  }

  /**
   The node id of a frontend test resolves if and only if its file exists and can report every title on
   the way, literally or as a filled-in template.
   */
  lemma VitestIdResolves(tree: FileTree, path: string, titles: seq<string>)
    requires path != "" && ':' !in path && '>' !in path && Strip(path) == path
    requires !(|path| >= 3 && path[|path| - 3..] == ".py")
    requires titles != [] && forall title :: title in titles ==> IsTitle(title)
    ensures Resolves(tree, Str(VitestId(path, titles))) <==>
            path in tree && forall title :: title in titles ==> exists q :: q in tree[path].quoted && Reports(q, title)
  {
    hide *;
    var tail, node := Join(titles, " > "), VitestId(path, titles);
    VitestParts(path, titles);
    VitestSegments(titles);
    NamesFrontendTest(tree, node, path, tail);
    if path in tree {
      ReportedEach(tree[path].quoted, titles);
    }
    ResolvesStr(tree, node);
  }

  lemma VitestParts(path: string, titles: seq<string>)
    requires path != "" && ':' !in path && '>' !in path && Strip(path) == path
    requires titles != [] && forall title :: title in titles ==> IsTitle(title)
    ensures var node := VitestId(path, titles);
            !Blank(node) && Partition(node, "::").None?
            && Partition(node, " > ") == Some(Halves(path, Join(titles, " > ")))
  {
    var tail, node := Join(titles, " > "), VitestId(path, titles);
    JoinKeepsOut(titles, " > ", ':');
    hide Strip, Join, Blank, IsTitle;
    NoColons(node);
    ArrowCut(path);
    FirstStays(path, " > ", tail);
    assert node[..|path|] == path && node[|path| + 3..] == tail;
    NotBlank(path, " > " + tail);
    assert path + " > " + tail == path + (" > " + tail);
    hide Find;
  }

  lemma VitestSegments(titles: seq<string>)
    requires titles != [] && forall title :: title in titles ==> IsTitle(title)
    ensures Split(Join(titles, " > "), " > ") == titles
    ensures forall k :: 0 <= k < |titles| ==> Strip(titles[k]) == titles[k]
  {
    forall k | 0 <= k < |titles|
      ensures CutFirst(titles[k], " > ") && !Contains(titles[k], " > ") && Strip(titles[k]) == titles[k]
    {
      assert titles[k] in titles;
      ArrowCut(titles[k]);
    }
    SplitOfJoin(titles, " > ");
  }

  lemma NamesFrontendTest(tree: FileTree, node: string, path: string, tail: string)
    requires Partition(node, "::").None? && Partition(node, " > ") == Some(Halves(path, tail)) && Strip(path) == path
    requires !(|path| >= 3 && path[|path| - 3..] == ".py")
    ensures NamesRealTest(tree, node) <==> path in tree && AllReported(tree[path].quoted, Split(tail, " > "))
  {
    hide Strip, Split, Partition, AllReported;
  }

  lemma ReportedEach(quoted: seq<string>, titles: seq<string>)
    requires forall k :: 0 <= k < |titles| ==> Strip(titles[k]) == titles[k]
    ensures AllReported(quoted, titles) <==> forall title :: title in titles ==> exists q :: q in quoted && Reports(q, title)
  {
    hide Strip, Reports;
    if AllReported(quoted, titles) {
      forall title | title in titles
        ensures exists q :: q in quoted && Reports(q, title)
      {
        var k :| 0 <= k < |titles| && titles[k] == title;
      }
    }
    if forall title :: title in titles ==> exists q :: q in quoted && Reports(q, title) {
      forall k | 0 <= k < |titles|
        ensures exists q :: q in quoted && Reports(q, Strip(titles[k]))
      {
        assert titles[k] in titles;
      }
    }
  }

  // ---- the file part

  /**
   `_node_path` is what stands in front of the first separator of either kind, stripped: no separator is
   in it, and one follows unless it is the whole id.
   */
  lemma NodePathExactly(node: string) returns (before: string)
    ensures before <= node && NodePath(Str(node)) == Strip(before)
    ensures !Contains(before, "::") && !Contains(before, " > ")
    ensures before == node || OccursAt(node, "::", |before|) || OccursAt(node, " > ", |before|)
  {
    var head := Split(node, "::")[0];
    before := Split(head, " > ")[0];
    SplitHead(node, "::");
    SplitHead(head, " > ");
    PartitionSpec(node, "::");
    PartitionSpec(head, " > ");
    FindSpec(node, "::");
    FindSpec(head, " > ");
    hide Strip, Split, OccursAt;
    assert head == node[..|head|] && before == head[..|before|];
    NotInPrefix(head, |before|, "::");
    if before != head {
      OccursInPrefix(node, |head|, " > ", |before|);
    }
  }

  lemma NotInPrefix(s: string, n: nat, p: string)
    requires n <= |s| && !Contains(s, p)
    ensures !Contains(s[..n], p)
  {
    FindSpec(s, p);
    FindSpec(s[..n], p);
    if Contains(s[..n], p) {
      OccursInPrefix(s, n, p, Find(s[..n], p).value);
    }
  }

  // ---- quoted titles

  /** A title as it stands between quotes: every backslash and every quote has a backslash in front. */
  function Escape(title: string, quote: char): string
  {
    if title == "" then ""
    else (if title[0] == '\\' || title[0] == quote then ['\\', title[0]] else [title[0]]) + Escape(title[1..], quote)
  }

  /** Unescaping takes exactly these backslashes away again. */
  lemma {:induction false} UnescapeInverts(title: string, quote: char)
    requires quote != '\n'
    ensures Unescape(Escape(title, quote)) == title
  {
    if title != "" {
      var c, rest := title[0], Escape(title[1..], quote);
      UnescapeInverts(title[1..], quote);
      assert title == [c] + title[1..];
      if c == '\\' || c == quote {
        var s := ['\\', c] + rest;
        assert s[2..] == rest;
      } else {
        var s := [c] + rest;
        assert s[1..] == rest;
        if |s| < 2 {
          EscapeLength(title[1..], quote);
        }
      }
    }
  }

  lemma {:induction false} EscapeLength(title: string, quote: char)
    ensures |Escape(title, quote)| >= |title|
  {
    if title != "" {
      EscapeLength(title[1..], quote);
    }
  }

  /** The template literal with these parts and these expressions in its holes. */
  function Interpolated(parts: Template, exprs: seq<string>): string
    requires |exprs| == |parts| - 1
  {
    if |parts| == 1 then parts[0] else parts[0] + "${" + (exprs[0] + "}" + Interpolated(parts[1..], exprs[1..]))
  }

  /** Nothing of a hole's opening can straddle the end of a part. */
  lemma HoleCut(part: string)
    requires !Contains(part, "${")
    ensures CutFirst(part, "${")
  {
    var s := part + "${";
    FindSpec(part, "${");
    assert s[|part|..|part| + 2] == "${";
    forall i | 0 <= i < |part|
      ensures !OccursAt(s, "${", i)
    {
      if i + 2 <= |part| {
        OccursInPrefix(s, |part|, "${", i);
        assert s[..|part|] == part;
      } else {
        OccurrenceAt(s, "${", i, 1);
        assert i + 1 == |part| && s[|part|] == '$';
      }
    }
    FindIs(s, "${", |part|);
  }

  lemma CutStep(part: string, expr: string, tail: string)
    requires !Contains(part, "${") && '}' !in expr
    ensures Cut(part + "${" + (expr + "}" + tail)) == [part] + Cut(tail)
  {
    var behind := expr + "}" + tail;
    var raw := part + "${" + behind;
    HoleCut(part);
    FirstStays(part, "${", behind);
    BraceCut(expr, tail);
    hide Find;
    assert raw[|part| + 2..] == behind && raw[..|part|] == part;
    assert raw[|part| + 2 + |expr| + 1..] == tail;
  }

  /** Cutting a template literal gives back its parts, in order, whatever stands in the holes. */
  lemma {:induction false} CutInverts(parts: Template, exprs: seq<string>)
    requires |exprs| == |parts| - 1 && (forall part :: part in parts ==> !Contains(part, "${"))
    requires forall expr :: expr in exprs ==> '}' !in expr
    ensures Cut(Interpolated(parts, exprs)) == parts
    decreases |parts|
  {
    hide Find, Cut;
    if |parts| > 1 {
      CutInverts(parts[1..], exprs[1..]);
      CutStep(parts[0], exprs[0], Interpolated(parts[1..], exprs[1..]));
    } else {
      OnePart(parts[0]);
    }
  }

  lemma OnePart(part: string)
    requires !Contains(part, "${")
    ensures Cut(part) == [part]
  {
  }

  lemma BraceCut(expr: string, tail: string)
    requires '}' !in expr
    ensures Find(expr + "}" + tail, "}") == Some(|expr|)
  {
    CutBehind(expr, "}");
    FirstStays(expr, "}", tail);
  }

  /** One hole of a raw title: what is in front of it, in it, and behind it. */
  lemma OneHole(raw: string) returns (part: string, expr: string, rest: string)
    requires Find(raw, "${").Some? && Find(raw[Find(raw, "${").value + 2..], "}").Some?
    ensures Cut(raw) == [part] + Cut(rest) && raw == part + "${" + (expr + "}" + rest) && '}' !in expr
  {
    PartitionSpec(raw, "${");
    var behind := raw[Find(raw, "${").value + 2..];
    PartitionSpec(behind, "}");
    part, expr, rest := Partition(raw, "${").value.before, Partition(behind, "}").value.before, Partition(behind, "}").value.after;
    hide Contains;
    NoBrace(expr);
    assert raw[|part| + 2 + |expr| + 1..] == rest;
  }

  lemma NoHole(raw: string)
    requires Find(raw, "${").None? || Find(raw[Find(raw, "${").value + 2..], "}").None?
    ensures Cut(raw) == [raw]
  {
  }

  /** And every raw title is the template literal of what it is cut into. */
  lemma {:induction false} CutCovers(raw: string) returns (exprs: seq<string>)
    ensures |exprs| == |Cut(raw)| - 1 && raw == Interpolated(Cut(raw), exprs)
    ensures forall expr :: expr in exprs ==> '}' !in expr
    decreases |raw|
  {
    hide Cut, Find;
    if Find(raw, "${").None? || Find(raw[Find(raw, "${").value + 2..], "}").None? {
      NoHole(raw);
      exprs := [];
    } else {
      var part, expr, rest := OneHole(raw);
      var others := CutCovers(rest);
      exprs := [expr] + others;
      assert exprs[1..] == others && Cut(raw)[1..] == Cut(rest);
    }
  }

  lemma NoBrace(s: string)
    requires !Contains(s, "}")
    ensures '}' !in s
  {
    FindSpec(s, "}");
    forall k | 0 <= k < |s| && s[k] == '}'
      ensures OccursAt(s, "}", k)
    {
      assert s[k..k + 1] == "}";
    }
  }
}
