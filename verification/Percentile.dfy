/** Nearest-rank percentiles (scripts/loadgen.py:159-170), over real latencies and before rounding. */
module Percentiles {
  import opened Wrappers
  import opened Counting

  predicate Ascending(s: seq<real>)
  {
    forall i, j :: 0 <= i < j < |s| ==> s[i] <= s[j]
  }

  function Insert(x: real, s: seq<real>): seq<real>
  {
    if s == [] || x <= s[0] then [x] + s else [s[0]] + Insert(x, s[1..])
  }

  /** `sorted(values)` */
  function Sorted(values: seq<real>): seq<real>
  {
    if values == [] then [] else Insert(values[0], Sorted(values[1..]))
  }

  lemma {:induction false} InsertBag(x: real, s: seq<real>)
    ensures multiset(Insert(x, s)) == multiset(s) + multiset{x}
  {
    if s != [] && x > s[0] {
      InsertBag(x, s[1..]);
      assert s == [s[0]] + s[1..];
    }
  }

  lemma {:induction false} InsertBound(x: real, s: seq<real>, low: real)
    requires low <= x && forall i :: 0 <= i < |s| ==> low <= s[i]
    ensures forall i :: 0 <= i < |Insert(x, s)| ==> low <= Insert(x, s)[i]
  {
    if s != [] && x > s[0] {
      InsertBound(x, s[1..], low);
    }
  }

  lemma {:induction false} InsertAscending(x: real, s: seq<real>)
    requires Ascending(s)
    ensures Ascending(Insert(x, s))
  {
    if s != [] && x > s[0] {
      InsertAscending(x, s[1..]);
      InsertBound(x, s[1..], s[0]);
    }
  }

  /** Sorting keeps the bag of values and puts them in order. */
  lemma {:induction false} SortedIsPermutation(values: seq<real>)
    ensures Ascending(Sorted(values)) && multiset(Sorted(values)) == multiset(values)
    ensures |Sorted(values)| == |values|
  {
    if values != [] {
      SortedIsPermutation(values[1..]);
      InsertAscending(values[0], Sorted(values[1..]));
      InsertBag(values[0], Sorted(values[1..]));
      assert values == [values[0]] + values[1..];
      assert |multiset(Sorted(values))| == |multiset(values)|;
    }
  }

  lemma FirstIsLeast(a: seq<real>, v: real)
    requires Ascending(a) && v in multiset(a)
    ensures a[0] <= v
  {
    var i :| 0 <= i < |a| && a[i] == v;
  }

  lemma DropFirst(a: seq<real>)
    requires a != []
    ensures multiset(a[1..]) == multiset(a) - multiset{a[0]}
  {
    assert a == [a[0]] + a[1..];
  }

  lemma SameFirst(a: seq<real>, b: seq<real>)
    requires Ascending(a) && Ascending(b) && multiset(a) == multiset(b) && a != [] && b != []
    ensures a[0] == b[0]
  {
    assert a[0] in multiset(a) && b[0] in multiset(b);
    FirstIsLeast(a, b[0]);
    FirstIsLeast(b, a[0]);
  }

  lemma SameLength(a: seq<real>, b: seq<real>)
    requires multiset(a) == multiset(b)
    ensures |a| == |b|
  {
    assert |a| == |multiset(a)| == |multiset(b)| == |b|;
  }

  lemma RestAscending(a: seq<real>)
    requires Ascending(a) && a != []
    ensures Ascending(a[1..])
  {
  }

  /** There is only one ascending arrangement of a bag of values. */
  lemma {:induction false} AscendingUnique(a: seq<real>, b: seq<real>)
    requires Ascending(a) && Ascending(b) && multiset(a) == multiset(b)
    ensures a == b
  {
    hide Ascending;
    SameLength(a, b);
    if a != [] {
      SameFirst(a, b);
      DropFirst(a);
      DropFirst(b);
      RestAscending(a);
      RestAscending(b);
      AscendingUnique(a[1..], b[1..]);
      assert a == [a[0]] + a[1..] && b == [b[0]] + b[1..];
    }
  }

  function Ceil(x: real): int
  {
    -((-x).Floor)
  }

  lemma CeilSpec(x: real)
    ensures (Ceil(x) - 1) as real < x <= Ceil(x) as real
  {
  }

  /** `max(1, math.ceil(q * n))` */
  function Rank(q: real, n: nat): int
  {
    if Ceil(q * n as real) < 1 then 1 else Ceil(q * n as real)
  }

  lemma Product(q: real, x: real)
    requires 0.0 < q <= 1.0 && x > 0.0
    ensures 0.0 < q * x <= x
  {
    assert (1.0 - q) * x >= 0.0;
    assert (1.0 - q) * x == x - q * x;
  }

  lemma CeilBetween(x: real, n: nat)
    requires 0.0 < x <= n as real
    ensures 1 <= Ceil(x) <= n
  {
    CeilSpec(x);
    assert (Ceil(x) - 1) as real < n as real;
  }

  lemma RankInRange(q: real, n: nat)
    requires 0.0 < q <= 1.0 && n > 0
    ensures 1 <= Rank(q, n) <= n && Rank(q, n) == Ceil(q * n as real)
  {
    Product(q, n as real);
    CeilBetween(q * n as real, n);
  }

  lemma ScaledOrder(x: real, y: real, k: real)
    requires x <= y && k >= 0.0
    ensures x * k <= y * k
  {
    var gap := y - x;
    assert gap * k >= 0.0;
    assert gap * k == y * k - x * k;
  }

  lemma CeilMonotone(x: real, y: real)
    requires x <= y
    ensures Ceil(x) <= Ceil(y)
  {
    CeilSpec(x);
    CeilSpec(y);
  }

  lemma RankMonotone(q: real, r: real, n: nat)
    requires q <= r
    ensures Rank(q, n) <= Rank(r, n)
  {
    ScaledOrder(q, r, n as real);
    CeilMonotone(q * n as real, r * n as real);
  }

  /** The percentile before rounding: None for no sample, as the driver reports no number at all then. */
  function Percentile(values: seq<real>, q: real): Option<real>
    requires 0.0 < q <= 1.0
  {
    if values == [] then None
    else
      SortedIsPermutation(values);
      RankInRange(q, |values|);
      Some(Sorted(values)[Rank(q, |values|) - 1])
  }

  function CountLe(s: seq<real>, x: real): nat
  {
    if s == [] then 0 else (if s[0] <= x then 1 else 0) + CountLe(s[1..], x)
  }

  function CountLt(s: seq<real>, x: real): nat
  {
    if s == [] then 0 else (if s[0] < x then 1 else 0) + CountLt(s[1..], x)
  }

  lemma {:induction false} CountsOfInsert(y: real, s: seq<real>, x: real)
    ensures CountLe(Insert(y, s), x) == CountLe(s, x) + if y <= x then 1 else 0
    ensures CountLt(Insert(y, s), x) == CountLt(s, x) + if y < x then 1 else 0
  {
    if s == [] || y <= s[0] {
      assert ([y] + s)[1..] == s;
    } else {
      CountsOfInsert(y, s[1..], x);
      assert Insert(y, s)[1..] == Insert(y, s[1..]);
    }
  }

  lemma {:induction false} CountsOfSorted(values: seq<real>, x: real)
    ensures CountLe(Sorted(values), x) == CountLe(values, x) && CountLt(Sorted(values), x) == CountLt(values, x)
  {
    if values != [] {
      CountsOfSorted(values[1..], x);
      CountsOfInsert(values[0], Sorted(values[1..]), x);
    }
  }

  /** In an ascending sequence, at most `k` values are below the one at position `k` and more than `k` not above it. */
  lemma {:induction false} CountsAtPosition(s: seq<real>, k: nat)
    requires Ascending(s) && k < |s|
    ensures CountLe(s, s[k]) >= k + 1 && CountLt(s, s[k]) <= k
  {
    if k == 0 {
      NoneBelow(s, s[0]);
    } else {
      CountsAtPosition(s[1..], k - 1);
    }
  }

  lemma {:induction false} NoneBelow(s: seq<real>, x: real)
    requires forall i :: 0 <= i < |s| ==> x <= s[i]
    ensures CountLt(s, x) == 0
  {
    if s != [] {
      NoneBelow(s[1..], x);
    }
  }

  lemma {:induction false} LeBelowLt(s: seq<real>, x: real, y: real)
    requires x < y
    ensures CountLe(s, x) <= CountLt(s, y)
  {
    if s != [] {
      LeBelowLt(s[1..], x, y);
    }
  }

  lemma SortedMember(values: seq<real>, i: nat)
    requires i < |Sorted(values)|
    ensures Sorted(values)[i] in values
  {
    SortedIsPermutation(values);
    hide Sorted, Ascending;
    assert Sorted(values)[i] in multiset(Sorted(values));
    assert Sorted(values)[i] in multiset(values);
  }

  lemma AtRank(values: seq<real>, k: nat)
    requires 1 <= k <= |Sorted(values)|
    ensures var p := Sorted(values)[k - 1];
            p in values && CountLe(values, p) >= k > CountLt(values, p)
  {
    SortedIsPermutation(values);
    SortedMember(values, k - 1);
    hide Sorted, Ascending, CountLe, CountLt;
    var s := Sorted(values);
    CountsAtPosition(s, k - 1);
    CountsOfSorted(values, s[k - 1]);
  }

  lemma PercentileAtRank(values: seq<real>, q: real) returns (k: nat)
    requires 0.0 < q <= 1.0 && values != []
    ensures k == Ceil(q * |values| as real) && 1 <= k <= |Sorted(values)|
    ensures Percentile(values, q) == Some(Sorted(values)[k - 1])
  {
    hide Sorted, Ascending, Ceil;
    SortedIsPermutation(values);
    RankInRange(q, |values|);
    k := Rank(q, |values|);
  }

  lemma OnlyOneAtRank(values: seq<real>, k: int, p: real, v: real)
    requires CountLe(values, p) >= k > CountLt(values, p) && CountLe(values, v) >= k > CountLt(values, v)
    ensures p == v
  {
    if p < v {
      LeBelowLt(values, p, v);
    } else if v < p {
      LeBelowLt(values, v, p);
    }
  }

  function AtMost(x: real): real -> bool { v => v <= x }

  function Below(x: real): real -> bool { v => v < x }

  /** The counts of a sample are numbers of positions. */
  lemma {:induction false} CountsAreCardinalities(s: seq<real>, x: real)
    ensures CountLe(s, x) == |Positions(s, AtMost(x))|
    ensures CountLt(s, x) == |Positions(s, Below(x))|
    decreases |s|
  {
    if s == [] {
      NoneInEmpty(AtMost(x));
      NoneInEmpty(Below(x));
    } else {
      CountsAreCardinalities(s[1..], x);
      PositionsCons(s[0], s[1..], AtMost(x));
      PositionsCons(s[0], s[1..], Below(x));
      assert s == [s[0]] + s[1..];
    }
  }

  /**
   Nearest rank, exactly: the percentile is the one recorded value with at least `ceil(q*n)` samples
   not above it and fewer than `ceil(q*n)` below it.
   */
  lemma NearestRank(values: seq<real>, q: real, v: real)
    requires 0.0 < q <= 1.0 && values != []
    ensures Percentile(values, q) == Some(v) <==>
            && v in values
            && |Positions(values, AtMost(v))| >= Ceil(q * |values| as real) > |Positions(values, Below(v))|
  {
    CountsAreCardinalities(values, v);
    hide Positions, AtMost, Below, Ceil, CountLe, CountLt, Percentile, Sorted;
    var k := PercentileAtRank(values, q);
    AtRank(values, k);
    var p := Sorted(values)[k - 1];
    if CountLe(values, v) >= k > CountLt(values, v) {
      OnlyOneAtRank(values, k, p, v);
    }
  }

  /** The order in which requests finished does not matter. */
  lemma PercentileOfPermutation(a: seq<real>, b: seq<real>, q: real)
    requires 0.0 < q <= 1.0 && multiset(a) == multiset(b)
    ensures Percentile(a, q) == Percentile(b, q)
  {
    SortedIsPermutation(a);
    SortedIsPermutation(b);
    AscendingUnique(Sorted(a), Sorted(b));
  }

  lemma PercentileMonotone(values: seq<real>, q: real, r: real)
    requires 0.0 < q <= r <= 1.0 && values != []
    ensures Percentile(values, q).value <= Percentile(values, r).value
  {
    SortedIsPermutation(values);
    RankInRange(q, |values|);
    RankInRange(r, |values|);
    RankMonotone(q, r, |values|);
  }

  /** `max(values)` */
  function Max(values: seq<real>): real
    requires values != []
  {
    if |values| == 1 then values[0]
    else if values[0] >= Max(values[1..]) then values[0] else Max(values[1..])
  }

  /** The maximum is the recorded value that none exceeds. */
  lemma {:induction false} MaxExactly(values: seq<real>, m: real)
    requires values != []
    ensures m == Max(values) <==> m in values && forall v :: v in values ==> v <= m
  {
    if |values| == 1 {
      assert values[0] in values && Max(values) == values[0];
    } else {
      var rest := values[1..];
      MaxExactly(rest, Max(rest));
      assert forall v :: v in values <==> v == values[0] || v in rest;
      assert Max(values) in values;
    }
  }

  /** The four reported latencies are in order, under any rounding that respects order. */
  lemma ReportedInOrder(values: seq<real>, round: real -> real)
    requires values != [] && forall x, y :: x <= y ==> round(x) <= round(y)
    ensures round(Percentile(values, 0.50).value) <= round(Percentile(values, 0.95).value)
            <= round(Percentile(values, 0.99).value) <= round(Max(values))
  {
    PercentileMonotone(values, 0.50, 0.95);
    PercentileMonotone(values, 0.95, 0.99);
    NearestRank(values, 0.99, Percentile(values, 0.99).value);
    MaxExactly(values, Max(values));
  }
}
