/** Counting pairs with a fixed first component. */
module Counting {

  ghost function PairedWith(s: set<int>, i: int): set<(int, int)> {
    set j | j in s :: (i, j)
  }

  lemma PairedMember(s: set<int>, i: int, q: (int, int))
    ensures q in PairedWith(s, i) <==> q.0 == i && q.1 in s
  {
    if q.0 == i && q.1 in s {
      var j := q.1;
      assert q == (i, j) && j in s;
    }
  }

  /** There are as many pairs as second components, here taken from 0 .. n - 1. */
  lemma {:induction false} PairedCount(s: set<int>, i: int, n: nat)
    requires forall x :: x in s ==> 0 <= x < n
    ensures |PairedWith(s, i)| == |s|
    decreases n
  {
    if n == 0 {
      var nothing: set<int>, noPairs: set<(int, int)> := {}, {};
      assert forall x :: x in s <==> x in nothing;
      assert forall q :: q in PairedWith(s, i) <==> q in noPairs;
      assert s == nothing && PairedWith(s, i) == noPairs;
    } else {
      var x := n - 1;
      PairedCount(s - {x}, i, n - 1);
      if x in s {
        forall q
          ensures q in PairedWith(s, i) <==> q in PairedWith(s - {x}, i) + {(i, x)}
        {
          PairedMember(s, i, q);
          PairedMember(s - {x}, i, q);
        }
        assert PairedWith(s, i) == PairedWith(s - {x}, i) + {(i, x)};
        PairedMember(s - {x}, i, (i, x));
      } else {
        assert s - {x} == s;
      }
    }
  }
}
