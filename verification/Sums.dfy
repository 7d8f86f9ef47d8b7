/** Sums of integer sequences, as the conservation arguments use them. */
module Sums {

  function Sum(s: seq<int>): int {
    if s == [] then 0 else s[0] + Sum(s[1..])
  }

  lemma {:induction false} SumUpdate(s: seq<int>, k: nat, v: int)
    requires k < |s|
    ensures Sum(s[k := v]) == Sum(s) - s[k] + v
  {
    if k == 0 {
      assert s[0 := v][1..] == s[1..];
    } else {
      assert s[k := v][1..] == s[1..][k - 1 := v];
      SumUpdate(s[1..], k - 1, v);
    }
  }

  lemma {:induction false} SumAtMost(s: seq<int>, bound: int)
    requires forall k :: 0 <= k < |s| ==> s[k] <= bound
    ensures Sum(s) <= bound * |s|
  {
    if s == [] {
    } else {
      SumAtMost(s[1..], bound);
      assert bound * |s| == bound * |s[1..]| + bound;
    }
  }

  lemma {:induction false} SumAtLeast(s: seq<int>, bound: int)
    requires forall k :: 0 <= k < |s| ==> bound <= s[k]
    ensures bound * |s| <= Sum(s)
  {
    if s == [] {
    } else {
      SumAtLeast(s[1..], bound);
      assert bound * |s| == bound * |s[1..]| + bound;
    }
  }

  lemma {:induction false} SumPointwise(s: seq<int>, t: seq<int>)
    requires |s| == |t| && forall k :: 0 <= k < |s| ==> s[k] <= t[k]
    ensures Sum(s) <= Sum(t)
  {
    if s == [] {
    } else {
      SumPointwise(s[1..], t[1..]);
    }
  }

  lemma {:induction false} SumOfSnoc(s: seq<int>, v: int)
    ensures Sum(s + [v]) == Sum(s) + v
  {
    if s == [] {
      assert [v][1..] == [];
    } else {
      assert (s + [v])[1..] == s[1..] + [v];
      SumOfSnoc(s[1..], v);
    }
  }
}
