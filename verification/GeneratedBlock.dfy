/**
 Splicing the generated block into README.md and checking it again
 (scripts/generate_repository_facts.py:540-567, 944-981).
 */
module Splice {
  import opened Wrappers
  import opened Text

  const BEGIN_MARKER: string := "<!-- BEGIN" + MARKER_TAIL
  const END_MARKER: string := "<!-- END" + MARKER_TAIL
  const MARKER_TAIL: string := " GENERATED: repository-facts -->"

  predicate Spliceable(text: string)
  {
    && Find(text, BEGIN_MARKER).Some? && Find(text, END_MARKER).Some?
    && Find(text, END_MARKER).value >= Find(text, BEGIN_MARKER).value
  }

  /** What a README keeps in front of and behind its generated block. */
  function Before(text: string): string
    requires Spliceable(text)
  {
    text[..Find(text, BEGIN_MARKER).value]
  }

  function Behind(text: string): string
    requires Spliceable(text)
  {
    text[Find(text, END_MARKER).value + |END_MARKER|..]
  }

  /** `splice_readme`: None where it exits because the markers are missing or out of order. */
  function SpliceReadme(text: string, block: string): Option<string>
  {
    var start, end := Find(text, BEGIN_MARKER), Find(text, END_MARKER);
    if start.None? || end.None? || end.value < start.value then None
    else Some(text[..start.value] + block + text[end.value + |END_MARKER|..])
  }

  /** The block starts and ends with its markers; `framed` blocks may still repeat the end marker. */
  predicate Framed(block: string)
  {
    StartsWith(block, BEGIN_MARKER) && EndsWith(block, END_MARKER)
  }

  /** A framed block whose only end marker is its suffix. */
  predicate WellShaped(block: string)
  {
    Framed(block) && Find(block, END_MARKER) == Some(|block| - |END_MARKER|)
  }

  lemma MarkerLengths()
    ensures |BEGIN_MARKER| == |END_MARKER| + 2
  {
  }

  /** Texts that agree up to `n` have the same occurrences up to there. */
  lemma SamePrefix(a: string, b: string, n: nat, p: string, i: int)
    requires n <= |a| && n <= |b| && a[..n] == b[..n] && i + |p| <= n
    ensures OccursAt(a, p, i) <==> OccursAt(b, p, i)
  {
    if 0 <= i {
      assert a[i..i + |p|] == a[..n][i..i + |p|];
      assert b[i..i + |p|] == b[..n][i..i + |p|];
    }
  }

  lemma InMiddle(pre: string, mid: string, post: string, p: string, i: int)
    requires |pre| <= i && i + |p| <= |pre| + |mid|
    ensures OccursAt(pre + mid + post, p, i) <==> OccursAt(mid, p, i - |pre|)
  {
    assert (pre + mid + post)[i..i + |p|] == mid[i - |pre|..i - |pre| + |p|];
  }

  lemma FramedHasEnd(block: string)
    requires Framed(block)
    ensures Find(block, END_MARKER).Some? && Find(block, END_MARKER).value <= |block| - |END_MARKER|
  {
    hide BEGIN_MARKER, END_MARKER;
    FindSpec(block, END_MARKER);
    assert OccursAt(block, END_MARKER, |block| - |END_MARKER|);
  }

  /**
   The seam argument: splicing keeps the text in front of the block and behind it, and no marker
   newly straddles the seam. The begin marker is found where the block starts, the end marker where
   the block first has it.
   */
  lemma MarkersOfSpliced(text: string, block: string)
    requires Spliceable(text) && Framed(block)
    ensures Find(block, END_MARKER).Some?
    ensures var spliced := Before(text) + block + Behind(text);
            && SpliceReadme(text, block) == Some(spliced)
            && Find(spliced, BEGIN_MARKER) == Some(|Before(text)|)
            && Find(spliced, END_MARKER) == Some(|Before(text)| + Find(block, END_MARKER).value)
  {
    hide BEGIN_MARKER, END_MARKER, Find;
    MarkerLengths();
    FramedHasEnd(block);
    Seam(text, block, Before(text), Behind(text), BEGIN_MARKER, END_MARKER);
  }

  /** The same for any two markers, the end marker not being the longer one. */
  lemma Seam(text: string, block: string, pre: string, post: string, begin: string, end: string)
    requires |end| <= |begin| && begin <= block && Find(block, end).Some?
    requires Find(text, begin) == Some(|pre|) && pre <= text
    requires Find(text, end).Some? && Find(text, end).value >= |pre|
    ensures Find(pre + block + post, begin) == Some(|pre|)
    ensures Find(pre + block + post, end) == Some(|pre| + Find(block, end).value)
  {
    hide Find;
    FindSpec(text, begin);
    FindSpec(text, end);
    FindSpec(block, end);
    var spliced, n, first := pre + block + post, |pre| + |begin|, Find(block, end).value;
    assert spliced[..n] == pre + begin == text[..n];
    assert spliced[|pre|..n] == begin;
    forall i | 0 <= i < |pre|
      ensures !OccursAt(spliced, begin, i) && !OccursAt(spliced, end, i)
    {
      SamePrefix(spliced, text, n, begin, i);
      SamePrefix(spliced, text, n, end, i);
    }
    FindIs(spliced, begin, |pre|);
    forall i | |pre| <= i <= |pre| + first
      ensures OccursAt(spliced, end, i) <==> i == |pre| + first
    {
      InMiddle(pre, block, post, end, i);
    }
    FindIs(spliced, end, |pre| + first);
  }

  /** A splice succeeds exactly on texts with both markers in order. */
  lemma SpliceableExactly(text: string, block: string)
    ensures SpliceReadme(text, block).Some? <==> Spliceable(text)
  {
    hide BEGIN_MARKER, END_MARKER;
  }

  /** Everything outside the markers survives, and the result can be spliced again. */
  lemma OutsideKept(text: string, block: string)
    requires Spliceable(text) && WellShaped(block)
    ensures SpliceReadme(text, block).Some? && Spliceable(SpliceReadme(text, block).value)
    ensures Before(SpliceReadme(text, block).value) == Before(text)
    ensures Behind(SpliceReadme(text, block).value) == Behind(text)
  {
    hide BEGIN_MARKER, END_MARKER;
    MarkersOfSpliced(text, block);
  }

  /** The last write wins: what an earlier well-shaped write put between the markers leaves no trace. */
  lemma LastWriteWins(text: string, first: string, second: string)
    requires Spliceable(text) && WellShaped(first)
    ensures SpliceReadme(text, first).Some?
    ensures SpliceReadme(SpliceReadme(text, first).value, second) == SpliceReadme(text, second)
  {
    OutsideKept(text, first);
    hide BEGIN_MARKER, END_MARKER;
  }

  /**
   Splicing the same framed block again changes nothing exactly when its end marker occurs in it
   only once; otherwise the second splice leaves the rest of the old block behind.
   */
  lemma IdempotentExactly(text: string, block: string)
    requires Spliceable(text) && Framed(block)
    ensures SpliceReadme(text, block).Some? && SpliceReadme(SpliceReadme(text, block).value, block).Some?
    ensures SpliceReadme(SpliceReadme(text, block).value, block) == SpliceReadme(text, block) <==> WellShaped(block)
  {
    hide BEGIN_MARKER, END_MARKER;
    MarkersOfSpliced(text, block);
    FramedHasEnd(block);
    var spliced, first := SpliceReadme(text, block).value, Find(block, END_MARKER).value;
    var again := SpliceReadme(spliced, block).value;
    assert |again| == |spliced| + (|block| - |END_MARKER| - first);
    if WellShaped(block) {
      LastWriteWins(text, block, block);
    }
  }

  // ---- the rendered block

  /** The inner text of a rendered block between its marker lines. */
  function BlockOf(inner: string): string
  {
    BEGIN_MARKER + "\n" + inner + "\n" + END_MARKER
  }

  /** `render_readme_block`: the marker lines around the inner lines. */
  function RenderBlock(inner: seq<string>): string
    requires inner != []
  {
    Join([BEGIN_MARKER] + inner + [END_MARKER], "\n")
  }

  lemma {:induction false} JoinLast(lines: seq<string>, last: string)
    requires lines != []
    ensures Join(lines + [last], "\n") == Join(lines, "\n") + "\n" + last
  {
    var all := lines + [last];
    assert all[1..] == lines[1..] + [last];
    if |lines| > 1 {
      JoinLast(lines[1..], last);
    } else {
      assert Join(all[1..], "\n") == last;
    }
  }

  lemma RenderedBlock(inner: seq<string>)
    requires inner != []
    ensures RenderBlock(inner) == BlockOf(Join(inner, "\n"))
  {
    hide BEGIN_MARKER, END_MARKER;
    var head := [BEGIN_MARKER] + inner;
    assert head[1..] == inner;
    JoinLast(head, END_MARKER);
  }

  lemma MarkersOnOneLine()
    ensures '\n' !in BEGIN_MARKER && '\n' !in END_MARKER
    ensures BEGIN_MARKER != "" && END_MARKER != ""
  {
    assert '\n' !in MARKER_TAIL;
    hide MARKER_TAIL;
  }

  lemma MarkerFronts()
    ensures "<!-- B" <= BEGIN_MARKER && "<!-- E" <= END_MARKER
  {
    hide MARKER_TAIL;
  }

  /** The begin marker does not contain the end marker. */
  lemma MarkersApart()
    ensures !Contains(BEGIN_MARKER, END_MARKER)
  {
    MarkerLengths();
    MarkerFronts();
    hide BEGIN_MARKER, END_MARKER;
    FindSpec(BEGIN_MARKER, END_MARKER);
    assert |END_MARKER| >= 6 && BEGIN_MARKER[5] == 'B' && END_MARKER[5] == 'E';
    assert BEGIN_MARKER[1] == '!' && BEGIN_MARKER[2] == '-' && END_MARKER[0] == '<';
    OccurrenceAt(BEGIN_MARKER, END_MARKER, 0, 5);
    OccurrenceAt(BEGIN_MARKER, END_MARKER, 1, 0);
    OccurrenceAt(BEGIN_MARKER, END_MARKER, 2, 0);
  }

  lemma OccursAcrossBreak(a: string, b: string, p: string, i: int)
    requires p != "" && '\n' !in p
    ensures OccursAt(a + "\n" + b, p, i) <==> OccursAt(a, p, i) || OccursAt(b, p, i - |a| - 1)
  {
    var t := a + "\n" + b;
    assert t == [] + a + ("\n" + b) == (a + "\n") + b + [];
    if i + |p| <= |a| && 0 <= i {
      InMiddle([], a, "\n" + b, p, i);
    } else if |a| + 1 <= i && i + |p| <= |t| {
      InMiddle(a + "\n", b, [], p, i);
    } else if 0 <= i <= |a| < i + |p| {
      OccurrenceAt(t, p, i, |a| - i);
    }
  }

  /** A needle without line breaks occurs in `a + "\n" + b` exactly when it occurs in `a` or in `b`. */
  lemma AcrossBreak(a: string, b: string, p: string)
    requires p != "" && '\n' !in p
    ensures Contains(a + "\n" + b, p) <==> Contains(a, p) || Contains(b, p)
    ensures Contains(a, p) ==> Find(a + "\n" + b, p) == Find(a, p)
    ensures !Contains(a, p) && Contains(b, p) ==> Find(a + "\n" + b, p) == Some(|a| + 1 + Find(b, p).value)
  {
    var t := a + "\n" + b;
    FindSpec(t, p);
    FindSpec(a, p);
    FindSpec(b, p);
    forall i
      ensures OccursAt(t, p, i) <==> OccursAt(a, p, i) || OccursAt(b, p, i - |a| - 1)
    {
      OccursAcrossBreak(a, b, p, i);
    }
    hide OccursAt;
    if Contains(a, p) {
      FindIs(t, p, Find(a, p).value);
    } else if Contains(b, p) {
      FindIs(t, p, |a| + 1 + Find(b, p).value);
    }
  }

  /** A rendered block is well shaped exactly when no inner line brings an end marker of its own. */
  lemma RenderedWellShaped(inner: seq<string>)
    requires inner != []
    ensures Framed(RenderBlock(inner))
    ensures WellShaped(RenderBlock(inner)) <==> forall k :: 0 <= k < |inner| ==> !Contains(inner[k], END_MARKER)
  {
    RenderedBlock(inner);
    MarkersOnOneLine();
    hide BEGIN_MARKER, END_MARKER;
    BlockShape(Join(inner, "\n"));
    JoinContains(inner, END_MARKER);
  }

  lemma BlockShape(inner: string)
    ensures Framed(BlockOf(inner))
    ensures WellShaped(BlockOf(inner)) <==> !Contains(inner, END_MARKER)
  {
    MarkersOnOneLine();
    MarkersApart();
    hide BEGIN_MARKER, END_MARKER;
    var block := BlockOf(inner);
    var body := inner + "\n" + END_MARKER;
    assert block == BEGIN_MARKER + "\n" + body;
    FindIs(END_MARKER, END_MARKER, 0);
    AcrossBreak(inner, END_MARKER, END_MARKER);
    AcrossBreak(BEGIN_MARKER, body, END_MARKER);
    FindSpec(inner, END_MARKER);
    assert block[|block| - |END_MARKER|..] == END_MARKER;
  }

  lemma {:induction false} JoinContains(lines: seq<string>, p: string)
    requires lines != [] && p != "" && '\n' !in p
    ensures Contains(Join(lines, "\n"), p) <==> exists k :: 0 <= k < |lines| && Contains(lines[k], p)
  {
    hide Contains;
    if |lines| > 1 {
      JoinContains(lines[1..], p);
      AcrossBreak(lines[0], Join(lines[1..], "\n"), p);
      assert forall k :: 0 <= k < |lines| - 1 ==> lines[1..][k] == lines[k + 1];
      if exists k :: 0 <= k < |lines| && Contains(lines[k], p) {
        var k :| 0 <= k < |lines| && Contains(lines[k], p);
        if k > 0 {
          assert Contains(lines[1..][k - 1], p);
        }
      }
    }
  }

  // ---- writing and checking the artefacts

  const JSON_REL: string := "docs/generated/repository_facts.json"
  const MD_REL: string := "docs/generated/repository_facts.md"
  const README_REL: string := "README.md"

  type Files = map<string, string>

  datatype Facts = Facts(json: string, markdown: string, block: string)

  /** Both JSON and Markdown are on disk before the README is read, so an exit leaves them written. */
  function Written(files: Files, facts: Facts): Files
  {
    var generated := files[JSON_REL := facts.json][MD_REL := facts.markdown];
    if !ReadmeSpliceable(files) then generated
    else generated[README_REL := Before(files[README_REL]) + facts.block + Behind(files[README_REL])]
  }

  predicate ReadmeSpliceable(files: Files)
  {
    README_REL in files && Spliceable(files[README_REL])
  }

  predicate Stale(files: Files, rel: string, expected: string)
  {
    (if rel in files then files[rel] else "") != expected
  }

  predicate ReadmeStale(text: string, block: string)
  {
    SpliceReadme(text, block) != Some(text)
  }

  /** The findings of `check_artifacts`; None where it raises or exits on the README. */
  function StaleFiles(files: Files, facts: Facts): Option<seq<string>>
  {
    if !ReadmeSpliceable(files) then None
    else Some((if Stale(files, JSON_REL, facts.json) then [JSON_REL] else [])
              + (if Stale(files, MD_REL, facts.markdown) then [MD_REL] else [])
              + (if ReadmeStale(files[README_REL], facts.block) then [README_REL] else []))
  }

  lemma DistinctPaths()
    ensures JSON_REL != MD_REL && MD_REL != README_REL && JSON_REL != README_REL
  {
    assert |JSON_REL| != |MD_REL| && |MD_REL| != |README_REL| && |JSON_REL| != |README_REL|;
  }

  class Repository {
    var files: Files

    method WriteArtifacts(facts: Facts) returns (written: Option<seq<string>>)
      modifies this
      ensures files == Written(old(files), facts)
      ensures written == if ReadmeSpliceable(old(files)) then Some([JSON_REL, MD_REL, README_REL]) else None
    {
      hide JSON_REL, MD_REL, README_REL, BEGIN_MARKER, END_MARKER, Find;
      DistinctPaths();
      files := files[JSON_REL := facts.json];
      files := files[MD_REL := facts.markdown];
      if README_REL !in files {
        return None;
      }
      SpliceableExactly(files[README_REL], facts.block);
      var spliced := SpliceReadme(files[README_REL], facts.block);
      if spliced.None? {
        return None;
      }
      files := files[README_REL := spliced.value];
      written := Some([JSON_REL, MD_REL, README_REL]);
    }

    method CheckArtifacts(facts: Facts) returns (failures: Option<seq<string>>)
      ensures failures == StaleFiles(files, facts)
    {
      hide JSON_REL, MD_REL, README_REL, BEGIN_MARKER, END_MARKER, Find;
      var json, markdown, readme: seq<string> := [], [], [];
      if (if JSON_REL in files then files[JSON_REL] else "") != facts.json {
        json := [JSON_REL];
      }
      if (if MD_REL in files then files[MD_REL] else "") != facts.markdown {
        markdown := [MD_REL];
      }
      if README_REL !in files {
        return None;
      }
      SpliceableExactly(files[README_REL], facts.block);
      var spliced := SpliceReadme(files[README_REL], facts.block);
      if spliced.None? {
        return None;
      }
      if spliced.value != files[README_REL] {
        readme := [README_REL];
      }
      failures := Some(json + markdown + readme);
    }
  }

  /** What the generator owns, and that it leaves every other file as it was. */
  lemma OnlyThreeFilesWritten(files: Files, facts: Facts, rel: string)
    ensures var after := Written(files, facts);
            && "docs/generated/repository_facts.json" in after && "docs/generated/repository_facts.md" in after
            && after["docs/generated/repository_facts.json"] == facts.json
            && after["docs/generated/repository_facts.md"] == facts.markdown
            && (ReadmeSpliceable(files) ==>
                  && "README.md" in after
                  && after["README.md"] == Before(files["README.md"]) + facts.block + Behind(files["README.md"]))
            && (rel !in {"docs/generated/repository_facts.json", "docs/generated/repository_facts.md"}
                && (rel == "README.md" ==> !ReadmeSpliceable(files)) ==>
                  (rel in after <==> rel in files) && (rel in files ==> after[rel] == files[rel]))
  {
    DistinctPaths();
    hide Spliceable, Before, Behind;
  }

  /**
   A generated file is reported if and only if it differs from what would be written, a missing file
   reading as empty; the README if and only if the text between its markers is not the block.
   */
  lemma StaleExactly(files: Files, facts: Facts, rel: string)
    requires StaleFiles(files, facts).Some?
    ensures "README.md" in files && Spliceable(files["README.md"])
    ensures rel in StaleFiles(files, facts).value <==>
            || (rel == "docs/generated/repository_facts.json" && (if rel in files then files[rel] != facts.json else facts.json != ""))
            || (rel == "docs/generated/repository_facts.md"
                && (if rel in files then files[rel] != facts.markdown else facts.markdown != ""))
            || (rel == "README.md" && files[rel] != Before(files[rel]) + facts.block + Behind(files[rel]))
  {
    DistinctPaths();
    ReadmeStaleExactly(files[README_REL], facts.block);
    hide Spliceable, Before, Behind, ReadmeStale;
  }

  lemma ReadmeStaleExactly(text: string, block: string)
    requires Spliceable(text)
    ensures ReadmeStale(text, block) <==> text != Before(text) + block + Behind(text)
  {
    hide BEGIN_MARKER, END_MARKER;
  }

  /** The text is what it keeps in front, the old block from its begin to its end marker, and what it keeps behind. */
  lemma PartsOfText(text: string)
    requires Spliceable(text)
    ensures var n, m := |Before(text)|, |text| - |Behind(text)|;
            && 0 <= n <= m - |END_MARKER| && text == Before(text) + text[n..m] + Behind(text)
            && BEGIN_MARKER <= text[n..] && text[m - |END_MARKER|..m] == END_MARKER
            && !Contains(Before(text), BEGIN_MARKER)
            && forall i :: 0 <= i < m - |END_MARKER| ==> !OccursAt(text, END_MARKER, i)
  {
    MarkersOnOneLine();
    hide BEGIN_MARKER, END_MARKER, Find;
    FindSpec(text, BEGIN_MARKER);
    FindSpec(text, END_MARKER);
    var n := |Before(text)|;
    FindSpec(Before(text), BEGIN_MARKER);
    forall i | 0 <= i && i + |BEGIN_MARKER| <= n
      ensures !OccursAt(Before(text), BEGIN_MARKER, i)
    {
      SamePrefix(Before(text), text, n, BEGIN_MARKER, i);
    }
  }

  /**
   Checking right after a successful write reports nothing exactly when the block is well shaped;
   a framed block that is not would be reported stale the moment it is written.
   */
  lemma CheckAfterWrite(files: Files, facts: Facts)
    requires ReadmeSpliceable(files) && Framed(facts.block)
    ensures StaleFiles(Written(files, facts), facts) ==
            if WellShaped(facts.block) then Some([]) else Some([README_REL])
  {
    hide JSON_REL, MD_REL, README_REL, BEGIN_MARKER, END_MARKER, Find, SpliceReadme, Before, Behind, WellShaped,
      Spliceable;
    DistinctPaths();
    MarkersOfSpliced(files[README_REL], facts.block);
    IdempotentExactly(files[README_REL], facts.block);
    var spliced := SpliceReadme(files[README_REL], facts.block).value;
    SpliceableExactly(spliced, facts.block);
    assert ReadmeStale(spliced, facts.block) <==> !WellShaped(facts.block);
    var after := Written(files, facts);
    assert after[README_REL] == spliced;
    assert !Stale(after, JSON_REL, facts.json) && !Stale(after, MD_REL, facts.markdown);
    assert ReadmeSpliceable(after);
    var none: seq<string> := [];
    assert none + none + none == none && none + none + [README_REL] == [README_REL];
  }
}

/** The line scanner that must skip the generated block (scripts/generate_repository_facts.py:880-897). */
module Scanner {
  import opened Wrappers
  import opened Text
  import opened Splice

  /** `str.splitlines()` with the line feed as the only line end. */
  function Lines(text: string): seq<string>
    decreases |text|
  {
    match Find(text, "\n")
    case None => if text == "" then [] else [text]
    case Some(i) => [text[..i]] + Lines(text[i + 1..])
  }

  datatype Entry = Entry(number: nat, line: string)

  /** Where the flag stands after a line. */
  function FlagAfter(line: string, generated: bool): bool
  {
    if Contains(line, BEGIN_MARKER) then true else if Contains(line, END_MARKER) then false else generated
  }

  predicate Yielded(line: string, generated: bool)
  {
    !Contains(line, BEGIN_MARKER) && !Contains(line, END_MARKER) && !generated
  }

  /** What is yielded from these lines, numbered from `number`, starting with this flag. */
  function Scan(lines: seq<string>, number: nat, generated: bool): seq<Entry>
  {
    if lines == [] then []
    else
      (if Yielded(lines[0], generated) then [Entry(number, lines[0])] else [])
      + Scan(lines[1..], number + 1, FlagAfter(lines[0], generated))
  }

  function FlagAfterAll(lines: seq<string>, generated: bool): bool
  {
    if lines == [] then generated else FlagAfterAll(lines[1..], FlagAfter(lines[0], generated))
  }

  predicate IsMarker(line: string)
  {
    Contains(line, BEGIN_MARKER) || Contains(line, END_MARKER)
  }

  /**
   Line `i` is present-tense text: it carries no marker, and the last line with a marker in front of it,
   if there is one, ends a block and does not begin one.
   */
  ghost predicate Outside(lines: seq<string>, i: nat)
    requires i < |lines|
  {
    && !IsMarker(lines[i])
    && forall j :: 0 <= j < i && IsMarker(lines[j]) && (forall m :: j < m < i ==> !IsMarker(lines[m]))
                   ==> Contains(lines[j], END_MARKER) && !Contains(lines[j], BEGIN_MARKER)
  }

  /** The entry names a line of the text that stands outside every generated block. */
  ghost predicate Reads(text: string, e: Entry)
  {
    && 1 <= e.number <= |Lines(text)| && e.line == Lines(text)[e.number - 1]
    && Outside(Lines(text), e.number - 1)
  }

  /** `_scan` over one file: exactly the lines outside the blocks, in order, each with its number. */
  method ScanText(text: string) returns (entries: seq<Entry>)
    ensures entries == Scan(Lines(text), 1, false)
    ensures forall e :: e in entries <==> Reads(text, e)
    ensures forall i, j :: 0 <= i < j < |entries| ==> entries[i].number < entries[j].number
  {
    ScanIsInOrder(Lines(text), 1, false);
    forall e
      ensures e in Scan(Lines(text), 1, false) <==> Reads(text, e)
    {
      ScanReadsExactly(text, e);
    }
    hide BEGIN_MARKER, END_MARKER, Contains;
    var lines := Lines(text);
    entries := [];
    var generated := false;
    for i := 0 to |lines|
      invariant Scan(lines[..i], 1, false) == entries && FlagAfterAll(lines[..i], false) == generated
    {
      assert lines[..i + 1] == lines[..i] + [lines[i]];
      ScanAppend(lines[..i], [lines[i]], 1, false);
      FlagAppend(lines[..i], lines[i], false);
      assert [lines[i]][1..] == [];
      if Contains(lines[i], BEGIN_MARKER) {
        generated := true;
      } else if Contains(lines[i], END_MARKER) {
        generated := false;
      } else if !generated {
        entries := entries + [Entry(i + 1, lines[i])];
      }
    }
    assert lines[..|lines|] == lines;
  }

  /** Where a line is yielded from a list of lines: at its own number, as the flag stands there. */
  lemma {:induction false} ScanMember(lines: seq<string>, number: nat, generated: bool, e: Entry)
    ensures e in Scan(lines, number, generated) <==>
            && number <= e.number < number + |lines| && e.line == lines[e.number - number]
            && Yielded(e.line, FlagAfterAll(lines[..e.number - number], generated))
  {
    hide FlagAfter, Yielded;
    if lines != [] {
      ScanMember(lines[1..], number + 1, FlagAfter(lines[0], generated), e);
      var i := e.number - number;
      if 0 < i < |lines| {
        assert lines[1..][i - 1] == lines[i];
        assert lines[..i][1..] == lines[1..][..i - 1] && lines[..i][0] == lines[0];
      }
    }
  }

  lemma {:induction false} ScanIsInOrder(lines: seq<string>, number: nat, generated: bool)
    ensures forall i, j :: 0 <= i < j < |Scan(lines, number, generated)| ==>
              Scan(lines, number, generated)[i].number < Scan(lines, number, generated)[j].number
    ensures forall e :: e in Scan(lines, number, generated) ==> e.number >= number
  {
    hide FlagAfter, Yielded;
    if lines != [] {
      ScanIsInOrder(lines[1..], number + 1, FlagAfter(lines[0], generated));
    }
  }

  /** The flag is up exactly when the last line with a marker, if there is one, begins a block. */
  lemma {:induction false} FlagMeans(lines: seq<string>, i: nat)
    requires i <= |lines|
    ensures FlagAfterAll(lines[..i], false) <==>
            exists j :: 0 <= j < i && Contains(lines[j], BEGIN_MARKER) && forall m :: j < m < i ==> !IsMarker(lines[m])
  {
    hide BEGIN_MARKER, END_MARKER, Contains;
    if i > 0 {
      FlagMeans(lines, i - 1);
      assert lines[..i] == lines[..i - 1] + [lines[i - 1]];
      FlagAppend(lines[..i - 1], lines[i - 1], false);
      hide FlagAfterAll;
      if FlagAfterAll(lines[..i - 1], false) && !IsMarker(lines[i - 1]) {
        var j :| 0 <= j < i - 1 && Contains(lines[j], BEGIN_MARKER) && forall m :: j < m < i - 1 ==> !IsMarker(lines[m]);
        assert forall m :: j < m < i ==> !IsMarker(lines[m]);
      }
    }
  }

  lemma {:induction false} LastMarker(lines: seq<string>, i: nat) returns (j: int)
    requires i <= |lines|
    ensures -1 <= j < i && (forall m :: j < m < i ==> !IsMarker(lines[m])) && (j >= 0 ==> IsMarker(lines[j]))
  {
    if i == 0 {
      j := -1;
    } else if IsMarker(lines[i - 1]) {
      j := i - 1;
    } else {
      j := LastMarker(lines, i - 1);
    }
  }

  lemma OutsideMeansFlagDown(lines: seq<string>, i: nat)
    requires i < |lines|
    ensures Outside(lines, i) <==> !IsMarker(lines[i]) && !FlagAfterAll(lines[..i], false)
  {
    hide BEGIN_MARKER, END_MARKER, Contains, FlagAfterAll;
    FlagMeans(lines, i);
    var last := LastMarker(lines, i);
  }

  lemma ScanReadsExactly(text: string, e: Entry)
    ensures e in Scan(Lines(text), 1, false) <==> Reads(text, e)
  {
    hide BEGIN_MARKER, END_MARKER, Contains, FlagAfterAll, Outside, Scan, Lines;
    var lines := Lines(text);
    ScanMember(lines, 1, false, e);
    if 1 <= e.number <= |lines| {
      OutsideMeansFlagDown(lines, e.number - 1);
    }
  }

  /** A file without markers yields every line, with its number. */
  lemma NoMarkersReadsAll(text: string, n: nat)
    requires 1 <= n <= |Lines(text)| && forall line :: line in Lines(text) ==> !IsMarker(line)
    ensures Entry(n, Lines(text)[n - 1]) in Scan(Lines(text), 1, false)
  {
    hide IsMarker, Scan, Lines;
    ScanReadsExactly(text, Entry(n, Lines(text)[n - 1]));
  }

  predicate EndsLine(text: string)
  {
    text == "" || text[|text| - 1] == '\n'
  }

  /** `splitlines` is `split` without the empty piece behind a final line break. */
  lemma {:induction false} LinesAreSplit(text: string)
    ensures Split(text, "\n") == if EndsLine(text) then Lines(text) + [""] else Lines(text)
    decreases |text|
  {
    match Find(text, "\n")
    case None =>
      NoBreak(text);
    case Some(i) =>
      FindSpec(text, "\n");
      LinesAreSplit(text[i + 1..]);
      OccurrenceAt(text, "\n", i, 0);
      assert EndsLine(text) <==> EndsLine(text[i + 1..]);
  }

  /** The lines of a text: none holds a line break, and joined by line breaks they are the text again. */
  lemma LinesSpec(text: string)
    ensures forall k :: 0 <= k < |Lines(text)| ==> '\n' !in Lines(text)[k]
    ensures text == (if Lines(text) == [] then "" else Join(Lines(text), "\n") + if EndsLine(text) then "\n" else "")
  {
    LinesAreSplit(text);
    SplitSpec(text, "\n");
    var lines, pieces := Lines(text), Split(text, "\n");
    hide Lines, Split, Contains;
    forall k | 0 <= k < |lines|
      ensures '\n' !in lines[k]
    {
      assert pieces[k] == lines[k];
      NoBreak(lines[k]);
    }
    if lines != [] && EndsLine(text) {
      JoinLast(lines, "");
    }
  }

  lemma NoBreak(s: string)
    ensures !Contains(s, "\n") ==> '\n' !in s
  {
    FindSpec(s, "\n");
    forall k | 0 <= k < |s| && s[k] == '\n'
      ensures OccursAt(s, "\n", k)
    {
      assert s[k..k + 1] == "\n";
    }
  }

  lemma {:induction false} FlagAppend(a: seq<string>, line: string, generated: bool)
    ensures FlagAfterAll(a + [line], generated) == FlagAfter(line, FlagAfterAll(a, generated))
  {
    hide FlagAfter;
    if a == [] {
      assert [line][1..] == [];
    } else {
      assert (a + [line])[1..] == a[1..] + [line];
      FlagAppend(a[1..], line, FlagAfter(a[0], generated));
    }
  }

  lemma {:induction false} ScanAppend(a: seq<string>, b: seq<string>, number: nat, generated: bool)
    ensures Scan(a + b, number, generated)
         == Scan(a, number, generated) + Scan(b, number + |a|, FlagAfterAll(a, generated))
  {
    hide FlagAfter, Yielded;
    if a == [] {
      assert a + b == b;
    } else {
      var ab := a + b;
      assert ab[1..] == a[1..] + b;
      ScanAppend(a[1..], b, number + 1, FlagAfter(a[0], generated));
      var head := if Yielded(a[0], generated) then [Entry(number, a[0])] else [];
      var mid := Scan(a[1..], number + 1, FlagAfter(a[0], generated));
      var tail := Scan(b, number + |a|, FlagAfterAll(a, generated));
      assert Scan(ab, number, generated) == head + (mid + tail) == (head + mid) + tail;
    }
  }

  /** Inside the block nothing is yielded and the flag stays up. */
  lemma {:induction false} BlockSkipped(lines: seq<string>, number: nat)
    requires forall k :: 0 <= k < |lines| ==> !Contains(lines[k], END_MARKER)
    ensures Scan(lines, number, true) == [] && FlagAfterAll(lines, true)
  {
    hide Contains;
    if lines != [] {
      BlockSkipped(lines[1..], number + 1);
    }
  }

  /** The same entries, with every number moved by `d`. */
  predicate ShiftedBy(a: seq<Entry>, b: seq<Entry>, d: int)
  {
    && |a| == |b|
    && forall i :: 0 <= i < |a| ==> b[i].line == a[i].line && b[i].number == a[i].number + d
  }

  lemma {:induction false} NumbersShift(lines: seq<string>, n: nat, m: nat, generated: bool)
    ensures ShiftedBy(Scan(lines, n, generated), Scan(lines, m, generated), m - n)
  {
    hide FlagAfter, Yielded;
    if lines != [] {
      NumbersShift(lines[1..], n + 1, m + 1, FlagAfter(lines[0], generated));
    }
  }

  lemma FindBreak(a: string, b: string)
    ensures Find(a + "\n" + b, "\n") == match Find(a, "\n") case Some(i) => Some(i) case None => Some(|a|)
  {
    var t := a + "\n" + b;
    FindSpec(a, "\n");
    assert t[..|a|] == a;
    assert t[|a|..|a| + 1] == "\n";
    forall i | i + 1 <= |a|
      ensures OccursAt(t, "\n", i) <==> OccursAt(a, "\n", i)
    {
      SamePrefix(t, a, |a|, "\n", i);
    }
    match Find(a, "\n")
    case Some(i) => FindIs(t, "\n", i);
    case None => FindIs(t, "\n", |a|);
  }

  /** A line break ends the pieces of what is in front of it. */
  lemma {:induction false} LinesAcrossBreak(a: string, b: string)
    ensures Lines(a + "\n" + b) == Split(a, "\n") + Lines(b)
    decreases |a|
  {
    var t := a + "\n" + b;
    FindBreak(a, b);
    match Find(a, "\n")
    case Some(i) =>
      assert t[i + 1..] == a[i + 1..] + "\n" + b;
      assert t[..i] == a[..i];
      LinesAcrossBreak(a[i + 1..], b);
    case None =>
      assert t[..|a|] == a && t[|a| + 1..] == b;
  }

  /** Appending text without a line break extends the last piece. */
  lemma {:induction false} LastPiece(a: string, tail: string)
    requires '\n' !in tail
    ensures var pieces, longer := Split(a, "\n"), Split(a + tail, "\n");
            && |longer| == |pieces|
            && longer[|longer| - 1] == pieces[|pieces| - 1] + tail
    decreases |a|
  {
    var t := a + tail;
    SameBreaks(a, tail);
    match Find(a, "\n")
    case Some(i) =>
      hide Find;
      assert t[..i] == a[..i] && t[i + 1..] == a[i + 1..] + tail;
      LastPiece(a[i + 1..], tail);
    case None =>
  }

  lemma SameBreaks(a: string, tail: string)
    requires '\n' !in tail
    ensures Find(a + tail, "\n") == Find(a, "\n")
  {
    var t := a + tail;
    FindSpec(a, "\n");
    assert t[..|a|] == a;
    forall i
      ensures OccursAt(t, "\n", i) <==> OccursAt(a, "\n", i)
    {
      if i + 1 <= |a| {
        SamePrefix(t, a, |a|, "\n", i);
      } else {
        OccurrenceAt(t, "\n", i, 0);
        assert |a| <= i < |t| ==> t[i] == tail[i - |a|];
      }
    }
    FindSpec(t, "\n");
    if Find(a, "\n").Some? {
      FindIs(t, "\n", Find(a, "\n").value);
    }
  }

  lemma {:induction false} PiecesContain(a: string, p: string)
    requires p != "" && '\n' !in p && !Contains(a, p)
    ensures forall k :: 0 <= k < |Split(a, "\n")| ==> !Contains(Split(a, "\n")[k], p)
    decreases |a|
  {
    match Find(a, "\n")
    case None =>
    case Some(i) =>
      FindSpec(a, "\n");
      assert a[i..i + 1] == "\n";
      assert a == a[..i] + "\n" + a[i + 1..];
      AcrossBreak(a[..i], a[i + 1..], p);
      PiecesContain(a[i + 1..], p);
      hide Contains;
  }

  lemma EndsContain(a: string, p: string)
    ensures Contains(a + p, p) && Contains(p + a, p)
  {
    FindSpec(a + p, p);
    assert OccursAt(a + p, p, |a|);
    FindIs(p + a, p, 0);
  }

  lemma {:induction false} FlagAtLast(lines: seq<string>, generated: bool)
    requires lines != [] && Contains(lines[|lines| - 1], BEGIN_MARKER)
    ensures FlagAfterAll(lines, generated)
  {
    hide Contains;
    if |lines| > 1 {
      FlagAtLast(lines[1..], FlagAfter(lines[0], generated));
    }
  }

  lemma LinesOfBlock(pre: string, begin: string, inner: string, end: string, post: string)
    ensures Lines(pre + (begin + "\n" + inner + "\n" + end) + post)
         == Split(pre + begin, "\n") + (Split(inner, "\n") + Lines(end + post))
  {
    hide Lines, Split;
    LinesAcrossBreak(pre + begin, inner + "\n" + (end + post));
    LinesAcrossBreak(inner, end + post);
    assert pre + (begin + "\n" + inner + "\n" + end) + post == (pre + begin) + "\n" + (inner + "\n" + (end + post));
  }

  /** The entries of a README around a rendered block: what stands before it, then what stands behind. */
  lemma ScanAround(pre: string, inner: string, post: string)
    requires !Contains(inner, END_MARKER)
    ensures Scan(Lines(pre + BlockOf(inner) + post), 1, false)
         == Scan(Split(pre + BEGIN_MARKER, "\n"), 1, false)
            + Scan(Lines(END_MARKER + post), 1 + |Split(pre + BEGIN_MARKER, "\n")| + |Split(inner, "\n")|, true)
  {
    MarkersOnOneLine();
    hide BEGIN_MARKER, END_MARKER, Contains, Split, Lines, Scan, FlagAfterAll;
    var head, body, tail := Split(pre + BEGIN_MARKER, "\n"), Split(inner, "\n"), Lines(END_MARKER + post);
    LinesOfBlock(pre, BEGIN_MARKER, inner, END_MARKER, post);
    LastPiece(pre, BEGIN_MARKER);
    EndsContain(Split(pre, "\n")[|Split(pre, "\n")| - 1], BEGIN_MARKER);
    FlagAtLast(head, false);
    ScanAppend(head, body + tail, 1, false);
    ScanAppend(body, tail, 1 + |head|, true);
    PiecesContain(inner, END_MARKER);
    BlockSkipped(body, 1 + |head|);
  }

  /**
   The scanner never reads generated text: from one README, whatever two rendered blocks are spliced
   in, it yields the same lines; those in front of the block keep their numbers and those behind it
   are moved by the difference in the blocks' lengths.
   */
  lemma ScanIgnoresBlock(text: string, inner1: seq<string>, inner2: seq<string>)
    requires Spliceable(text) && inner1 != [] && inner2 != []
    requires WellShaped(RenderBlock(inner1)) && WellShaped(RenderBlock(inner2))
    ensures SpliceReadme(text, RenderBlock(inner1)).Some? && SpliceReadme(text, RenderBlock(inner2)).Some?
    ensures var head, tail := Split(Before(text) + BEGIN_MARKER, "\n"), Lines(END_MARKER + Behind(text));
            var front := Scan(head, 1, false);
            var after1 := Scan(tail, 1 + |head| + |Split(Join(inner1, "\n"), "\n")|, true);
            var after2 := Scan(tail, 1 + |head| + |Split(Join(inner2, "\n"), "\n")|, true);
            && Scan(Lines(SpliceReadme(text, RenderBlock(inner1)).value), 1, false) == front + after1
            && Scan(Lines(SpliceReadme(text, RenderBlock(inner2)).value), 1, false) == front + after2
            && ShiftedBy(after1, after2, |Split(Join(inner2, "\n"), "\n")| - |Split(Join(inner1, "\n"), "\n")|)
  {
    hide BEGIN_MARKER, END_MARKER, Scan, Lines, Split, Contains, Find, Join, RenderBlock, ShiftedBy, Spliceable,
      Before, Behind, SpliceReadme, BlockOf;
    RenderedBlock(inner1);
    RenderedBlock(inner2);
    BlockShape(Join(inner1, "\n"));
    BlockShape(Join(inner2, "\n"));
    MarkersOfSpliced(text, RenderBlock(inner1));
    MarkersOfSpliced(text, RenderBlock(inner2));
    ScanAround(Before(text), Join(inner1, "\n"), Behind(text));
    ScanAround(Before(text), Join(inner2, "\n"), Behind(text));
    var head, tail := Split(Before(text) + BEGIN_MARKER, "\n"), Lines(END_MARKER + Behind(text));
    var n1, n2 := 1 + |head| + |Split(Join(inner1, "\n"), "\n")|, 1 + |head| + |Split(Join(inner2, "\n"), "\n")|;
    NumbersShift(tail, n1, n2, true);
    assert ShiftedBy(Scan(tail, n1, true), Scan(tail, n2, true), n2 - n1);
  }

  /**
   And it reads everything behind the block: a line of the spliced README behind the one with the end
   marker is yielded, with its number, unless a marker of its own is in the way.
   */
  lemma BehindBlockIsRead(text: string, inner: seq<string>, i: nat)
    requires Spliceable(text) && inner != [] && WellShaped(RenderBlock(inner))
    requires var tail := Lines(END_MARKER + Behind(text));
             && 0 < i < |tail| && !Contains(tail[0], BEGIN_MARKER)
             && forall m :: 0 < m <= i ==> !IsMarker(tail[m])
    ensures SpliceReadme(text, RenderBlock(inner)).Some?
    ensures var tail, spliced := Lines(END_MARKER + Behind(text)), SpliceReadme(text, RenderBlock(inner)).value;
            var skipped := |Split(Before(text) + BEGIN_MARKER, "\n")| + |Split(Join(inner, "\n"), "\n")|;
            skipped + i < |Lines(spliced)| && Lines(spliced)[skipped + i] == tail[i]
            && Reads(spliced, Entry(skipped + i + 1, tail[i]))
  {
    hide BEGIN_MARKER, END_MARKER, Scan, Lines, Split, Contains, Find, Join, RenderBlock, Spliceable, Before, Behind,
      SpliceReadme, FlagAfterAll;
    RenderedBlock(inner);
    BlockShape(Join(inner, "\n"));
    MarkersOfSpliced(text, RenderBlock(inner));
    var spliced := SpliceReadme(text, RenderBlock(inner)).value;
    MarkersOnOneLine();
    LinesOfBlock(Before(text), BEGIN_MARKER, Join(inner, "\n"), END_MARKER, Behind(text));
    var head, body := Split(Before(text) + BEGIN_MARKER, "\n"), Split(Join(inner, "\n"), "\n");
    var tail := Lines(END_MARKER + Behind(text));
    assert Lines(spliced) == head + (body + tail);
    FirstLineCarries(END_MARKER, Behind(text));
    OutsideBehind(head + body, tail, i);
    assert head + (body + tail) == (head + body) + tail;
  }

  lemma OutsideBehind(front: seq<string>, tail: seq<string>, i: nat)
    requires 0 < i < |tail| && Contains(tail[0], END_MARKER) && !Contains(tail[0], BEGIN_MARKER)
    requires forall m :: 0 < m <= i ==> !IsMarker(tail[m])
    ensures Outside(front + tail, |front| + i)
  {
    hide Contains, BEGIN_MARKER, END_MARKER;
    var all, n := front + tail, |front|;
    assert forall m :: n <= m <= n + i ==> all[m] == tail[m - n];
    forall j | 0 <= j < n + i && IsMarker(all[j]) && (forall m :: j < m < n + i ==> !IsMarker(all[m]))
      ensures j == n
    {
      assert IsMarker(all[n]);
    }
  }

  lemma FirstLineCarries(p: string, post: string)
    requires p != "" && '\n' !in p
    ensures Lines(p + post) != [] && Contains(Lines(p + post)[0], p)
  {
    hide Contains;
    var t := p + post;
    FindSpec(t, "\n");
    match Find(t, "\n") {
      case None =>
        EndsContain(post, p);
      case Some(i) =>
        OccurrenceAt(t, "\n", i, 0);
        assert forall k :: 0 <= k < |p| ==> t[k] == p[k];
        assert i >= |p|;
        assert t[..i] == p + post[..i - |p|];
        EndsContain(post[..i - |p|], p);
    }
  }
}
