/** The positions of a sequence at which a predicate holds, and how many there are. */
module Counting {
  function Positions<T>(s: seq<T>, p: T -> bool): set<int>
  {
    set i | 0 <= i < |s| && p(s[i])
  }

  lemma NoneInEmpty<T>(p: T -> bool)
    ensures |Positions<T>([], p)| == 0
  {
    assert Positions<T>([], p) == {};
  }

  lemma PositionsSnoc<T>(s: seq<T>, x: T, p: T -> bool)
    ensures |Positions(s + [x], p)| == |Positions(s, p)| + if p(x) then 1 else 0
  {
    var longer := s + [x];
    assert forall i :: 0 <= i < |s| ==> longer[i] == s[i];
    if p(x) {
      assert Positions(longer, p) == Positions(s, p) + {|s|};
    } else {
      assert Positions(longer, p) == Positions(s, p);
    }
  }

  lemma {:induction false} PositionsCons<T>(x: T, s: seq<T>, p: T -> bool)
    ensures |Positions([x] + s, p)| == (if p(x) then 1 else 0) + |Positions(s, p)|
    decreases |s|
  {
    if s == [] {
      NoneInEmpty(p);
      PositionsSnoc([], x, p);
      assert [] + [x] == [x] + s == [x];
    } else {
      var init, last := s[..|s| - 1], s[|s| - 1];
      PositionsCons(x, init, p);
      PositionsSnoc([x] + init, last, p);
      PositionsSnoc(init, last, p);
      assert s == init + [last] && [x] + s == [x] + init + [last];
    }
  }
}
