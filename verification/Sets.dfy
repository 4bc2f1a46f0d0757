/** Counting with finite sets of integers. */
module Sets {

  predicate Below(i: int, n: nat) { 0 <= i < n }

  /** 0, 1, ..., n - 1. */
  ghost function Upto(n: nat): set<int> { set i | 0 <= i < n && Below(i, n) }

  lemma {:induction false} UptoSize(n: nat)
    ensures |Upto(n)| == n
  {
    if n > 0 {
      UptoSize(n - 1);
      assert Upto(n) == Upto(n - 1) + {n - 1};
    }
  }

  lemma {:induction false} SubsetSize(small: set<int>, big: set<int>)
    requires small <= big
    ensures |small| <= |big|
    ensures |small| == |big| ==> small == big
  {
    assert big == small + (big - small);
  }

  lemma {:induction false} OneInOrOut(s: set<int>, i: int)
    ensures |s - {i}| == |s| - (if i in s then 1 else 0)
    ensures |s + {i}| == |s| + (if i in s then 0 else 1)
  {
    if i in s { assert s + {i} == s; } else { assert s - {i} == s; }
  }
}
