/** The option type shared by every module of the project. */
module Wrappers {
  datatype Option<+T> = None | Some(value: T)
}

/**
 The Python string operations the modelled scripts use: `find`, `partition`, `split`, `strip`
 and `startswith`, over sequences of Unicode code points.
 */
module Text {
  import opened Wrappers

  /** `p` occurs in `s` at index `i`. */
  predicate OccursAt(s: string, p: string, i: int)
  {
    0 <= i && i + |p| <= |s| && s[i..i + |p|] == p
  }

  /** Character by character, what an occurrence says. */
  lemma OccurrenceAt(s: string, p: string, i: int, j: nat)
    requires j < |p|
    ensures OccursAt(s, p, i) ==> s[i + j] == p[j]
  {
    if OccursAt(s, p, i) {
      assert s[i..i + |p|][j] == p[j];
    }
  }

  /** `p in s` */
  ghost predicate Occurs(s: string, p: string)
  {
    exists i :: OccursAt(s, p, i)
  }

  /** `s.find(p)`: the first index at which `p` occurs, or None where Python answers -1. */
  function Find(s: string, p: string): (r: Option<nat>)
    ensures r.Some? ==> r.value + |p| <= |s|
  {
    FindFrom(s, p, 0)
  }

  function FindFrom(s: string, p: string, from: nat): (r: Option<nat>)
    ensures r.Some? ==> r.value + |p| <= |s|
    decreases |s| + 1 - from
  {
    if from + |p| > |s| then None
    else if OccursAt(s, p, from) then Some(from)
    else FindFrom(s, p, from + 1)
  }

  /** `Find` answers the first occurrence, and None exactly when there is none. */
  lemma FindSpec(s: string, p: string)
    ensures Find(s, p).None? ==> forall i :: !OccursAt(s, p, i)
    ensures Find(s, p).Some? ==> OccursAt(s, p, Find(s, p).value)
    ensures Find(s, p).Some? ==> forall i :: 0 <= i < Find(s, p).value ==> !OccursAt(s, p, i)
  {
    FindFromSpec(s, p, 0);
  }

  lemma {:induction false} FindFromSpec(s: string, p: string, from: nat)
    ensures var r := FindFrom(s, p, from);
            && (r.None? ==> forall i :: from <= i ==> !OccursAt(s, p, i))
            && (r.Some? ==> from <= r.value && OccursAt(s, p, r.value))
            && (r.Some? ==> forall i :: from <= i < r.value ==> !OccursAt(s, p, i))
    decreases |s| + 1 - from
  {
    if from + |p| <= |s| && !OccursAt(s, p, from) {
      FindFromSpec(s, p, from + 1);
    }
  }

  predicate Contains(s: string, p: string)
  {
    Find(s, p).Some?
  }

  /** The first occurrence is determined by its two defining facts. */
  lemma FindIs(s: string, p: string, i: nat)
    requires OccursAt(s, p, i)
    requires forall k :: 0 <= k < i ==> !OccursAt(s, p, k)
    ensures Find(s, p) == Some(i)
  {
    FindSpec(s, p);
  }

  datatype Halves = Halves(before: string, after: string)

  /** `s.partition(sep)`, with None where Python finds no separator. */
  function Partition(s: string, sep: string): Option<Halves>
  {
    match Find(s, sep)
    case None => None
    case Some(i) => Some(Halves(s[..i], s[i + |sep|..]))
  }

  lemma OccursInPrefix(s: string, n: nat, p: string, k: int)
    requires n <= |s| && k + |p| <= n
    ensures OccursAt(s[..n], p, k) <==> OccursAt(s, p, k)
  {
    if 0 <= k {
      assert s[k..k + |p|] == s[..n][k..k + |p|];
    }
  }

  /** A partition cuts out one separator, and no separator starts inside the first half. */
  lemma PartitionSpec(s: string, sep: string)
    ensures Partition(s, sep).None? <==> !Contains(s, sep)
    ensures Partition(s, sep).Some? ==>
              var halves := Partition(s, sep).value;
              && s == halves.before + sep + halves.after
              && Find(s, sep) == Some(|halves.before|)
              && (sep != "" ==> !Contains(halves.before, sep))
  {
    FindSpec(s, sep);
    if Partition(s, sep).Some? {
      var halves := Partition(s, sep).value;
      FindSpec(halves.before, sep);
      if Contains(halves.before, sep) {
        var k := Find(halves.before, sep).value;
        OccursInPrefix(s, |halves.before|, sep, k);
      }
    }
  }

  predicate StartsWith(s: string, p: string)
  {
    p <= s
  }

  predicate EndsWith(s: string, p: string)
  {
    |p| <= |s| && s[|s| - |p|..] == p
  }

  /** `s.split(sep)` for a non-empty separator: cut at every leftmost occurrence. */
  function Split(s: string, sep: string): (parts: seq<string>)
    requires sep != ""
    ensures |parts| >= 1
    decreases |s|
  {
    match Find(s, sep)
    case None => [s]
    case Some(i) => [s[..i]] + Split(s[i + |sep|..], sep)
  }

  /** `sep.join(parts)` */
  function Join(parts: seq<string>, sep: string): string
    requires parts != []
  {
    if |parts| == 1 then parts[0] else parts[0] + sep + Join(parts[1..], sep)
  }

  /** Up to the separator behind it, the text has no other one: the cut is at the leftmost place. */
  predicate CutFirst(part: string, sep: string)
  {
    Find(part + sep, sep) == Some(|part|)
  }

  /** Behind each part but the last a separator is cut out at the leftmost place; the last has none. */
  ghost predicate CutEverywhere(parts: seq<string>, sep: string)
  {
    && parts != []
    && (forall k :: 0 <= k < |parts| - 1 ==> CutFirst(parts[k], sep))
    && !Contains(parts[|parts| - 1], sep)
  }

  /** The first occurrence is found whatever stands behind it. */
  lemma FirstStays(part: string, sep: string, rest: string)
    requires sep != ""
    ensures Find(part + sep + rest, sep) == Some(|part|) <==> CutFirst(part, sep)
  {
    var short, long := part + sep, part + sep + rest;
    FindSpec(short, sep);
    FindSpec(long, sep);
    assert short[|part|..|part| + |sep|] == sep && long[|part|..|part| + |sep|] == sep;
    forall i | 0 <= i < |part|
      ensures OccursAt(short, sep, i) <==> OccursAt(long, sep, i)
    {
      assert short[i..i + |sep|] == long[i..i + |sep|];
    }
    assert OccursAt(short, sep, |part|) && OccursAt(long, sep, |part|);
    hide Find, OccursAt;
    if CutFirst(part, sep) {
      FindIs(long, sep, |part|);
    } else if Find(long, sep) == Some(|part|) {
      FindIs(short, sep, |part|);
    }
  }

  /**
   Splitting and joining are inverse: the parts join to the text again, none contains the separator,
   and no other list of parts is cut everywhere at the leftmost place.
   */
  lemma {:induction false} SplitSpec(s: string, sep: string)
    requires sep != ""
    ensures Join(Split(s, sep), sep) == s && CutEverywhere(Split(s, sep), sep)
    ensures forall k :: 0 <= k < |Split(s, sep)| ==> !Contains(Split(s, sep)[k], sep)
    decreases |s|
  {
    PartitionSpec(s, sep);
    if Contains(s, sep) {
      var halves := Partition(s, sep).value;
      SplitSpec(halves.after, sep);
      FirstStays(halves.before, sep, halves.after);
      var rest := Split(halves.after, sep);
      assert Split(s, sep)[1..] == rest;
      forall k | 1 <= k < |Split(s, sep)|
        ensures Split(s, sep)[k] == rest[k - 1]
      {
      }
      hide Find;
    }
  }

  lemma {:induction false} SplitOfJoin(parts: seq<string>, sep: string)
    requires sep != "" && CutEverywhere(parts, sep)
    ensures Split(Join(parts, sep), sep) == parts
    decreases |parts|
  {
    if |parts| > 1 {
      var rest := parts[1..];
      assert forall k :: 0 <= k < |rest| ==> rest[k] == parts[k + 1];
      SplitOfJoin(rest, sep);
      assert CutFirst(parts[0], sep);
      FirstStays(parts[0], sep, Join(rest, sep));
      var s := Join(parts, sep);
      assert s[..|parts[0]|] == parts[0];
      assert s[|parts[0]| + |sep|..] == Join(rest, sep);
    }
  }

  /** A part without the separator's first character is cut at the leftmost place behind it. */
  lemma CutBehind(part: string, sep: string)
    requires sep != "" && sep[0] !in part
    ensures CutFirst(part, sep) && !Contains(part, sep)
  {
    var s := part + sep;
    assert s[|part|..|part| + |sep|] == sep;
    forall i | 0 <= i < |part|
      ensures !OccursAt(s, sep, i) && !OccursAt(part, sep, i)
    {
      OccurrenceAt(s, sep, i, 0);
      OccurrenceAt(part, sep, i, 0);
      assert s[i] == part[i];
    }
    FindIs(s, sep, |part|);
    FindSpec(part, sep);
  }

  /** The characters for which `str.isspace` holds, which `str.strip` removes. */
  predicate IsSpace(c: char)
  {
    || '\t' <= c <= '\r' || '\U{1C}' <= c <= ' ' || c == '\U{85}' || c == '\U{A0}' || c == '\U{1680}'
    || '\U{2000}' <= c <= '\U{200A}' || c == '\U{2028}' || c == '\U{2029}' || c == '\U{202F}'
    || c == '\U{205F}' || c == '\U{3000}'
  }

  /** All 29 of them. */
  lemma SpacesAre(c: char)
    ensures IsSpace(c) <==>
            c in ['\t', '\n', '\U{0B}', '\U{0C}', '\r', '\U{1C}', '\U{1D}', '\U{1E}', '\U{1F}', ' ', '\U{85}', '\U{A0}', '\U{1680}',
                  '\U{2000}', '\U{2001}', '\U{2002}', '\U{2003}', '\U{2004}', '\U{2005}', '\U{2006}', '\U{2007}', '\U{2008}',
                  '\U{2009}', '\U{200A}', '\U{2028}', '\U{2029}', '\U{202F}', '\U{205F}', '\U{3000}']
  {
  }

  predicate Blank(s: string)
  {
    forall c :: c in s ==> IsSpace(c)
  }

  function LStrip(s: string): string
  {
    if s == "" || !IsSpace(s[0]) then s else LStrip(s[1..])
  }

  function RStrip(s: string): string
  {
    if s == "" || !IsSpace(s[|s| - 1]) then s else RStrip(s[..|s| - 1])
  }

  /** `s.strip()` */
  function Strip(s: string): string
  {
    RStrip(LStrip(s))
  }

  lemma {:induction false} LStripSpec(s: string)
    ensures var r := LStrip(s);
            && |r| <= |s| && r == s[|s| - |r|..] && Blank(s[..|s| - |r|])
            && (r == "" || !IsSpace(r[0]))
  {
    if s != "" && IsSpace(s[0]) {
      LStripSpec(s[1..]);
      var k := |s| - |LStrip(s)|;
      assert s[..k] == [s[0]] + s[1..][..k - 1];
    }
  }

  lemma {:induction false} RStripSpec(s: string)
    ensures var r := RStrip(s);
            && r <= s && Blank(s[|r|..])
            && (r == "" || !IsSpace(r[|r| - 1]))
  {
    if s != "" && IsSpace(s[|s| - 1]) {
      var init := s[..|s| - 1];
      RStripSpec(init);
      var k := |RStrip(s)|;
      assert s[k..] == init[k..] + [s[|s| - 1]];
    }
  }

  /** Stripping cuts `s` to `s[from..to]`: what is cut is white space, what is left has none at its ends. */
  lemma StripSpec(s: string) returns (from: nat, to: nat)
    ensures from <= to <= |s| && Strip(s) == s[from..to]
    ensures forall k :: 0 <= k < from ==> IsSpace(s[k])
    ensures forall k :: to <= k < |s| ==> IsSpace(s[k])
    ensures from < to ==> !IsSpace(s[from]) && !IsSpace(s[to - 1])
  {
    LStripSpec(s);
    var l := LStrip(s);
    RStripSpec(l);
    from := |s| - |l|;
    to := from + |RStrip(l)|;
    forall k | 0 <= k < from
      ensures IsSpace(s[k])
    {
      assert s[..from][k] in s[..from];
    }
    forall k | to <= k < |s|
      ensures IsSpace(s[k])
    {
      assert l[|RStrip(l)|..][k - to] in l[|RStrip(l)|..];
    }
  }

  /** `strip` answers the empty string exactly on the strings that are all white space. */
  lemma StripEmpty(s: string)
    ensures Strip(s) == "" <==> Blank(s)
  {
    var from, to := StripSpec(s);
    if from < to {
      assert s[from] in s;
    }
  }
}
