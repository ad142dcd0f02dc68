/** Small shared vocabulary: optional values, money and sums over sequences. */
module Common {
  datatype Option<+T> = None | Some(value: T) {
    function GetOr(default: T): T {
      if Some? then value else default
    }
  }

  /** Money is a Decimal with four places in the source: a whole number of ten-thousandths. */
  type Money = int

  type Currency = string

  function Sum(s: seq<int>): int {
    if s == [] then 0 else Sum(s[..|s| - 1]) + s[|s| - 1]
  }

  lemma SumAppend(s: seq<int>, x: int)
    ensures Sum(s + [x]) == Sum(s) + x
  {
    assert (s + [x])[..|s|] == s;
  }

  lemma {:induction false} SumUpdate(s: seq<int>, i: nat, x: int)
    requires i < |s|
    ensures Sum(s[i := x]) == Sum(s) - s[i] + x
  {
    var last := |s| - 1;
    if i == last {
      assert s[i := x][..last] == s[..last];
    } else {
      SumUpdate(s[..last], i, x);
      assert s[i := x][..last] == s[..last][i := x];
    }
  }

  // Increasing lists of positions, the shape of every filtered query.

  predicate Increasing(ids: seq<nat>) {
    forall j, k | 0 <= j < k < |ids| :: ids[j] < ids[k]
  }

  function Elements(ids: seq<nat>): set<nat> {
    set i | i in ids
  }

  lemma LastIsGreatest(x: seq<nat>, i: nat)
    requires Increasing(x) && i in x
    ensures i <= x[|x| - 1]
    ensures i != x[|x| - 1] <==> i in x[..|x| - 1]
  {
    var k :| 0 <= k < |x| && x[k] == i;
    assert x == x[..|x| - 1] + [x[|x| - 1]];
  }

  lemma ElementsLast(x: seq<nat>)
    requires Increasing(x) && x != []
    ensures Elements(x[..|x| - 1]) == Elements(x) - {x[|x| - 1]}
    ensures x[|x| - 1] in Elements(x)
    ensures forall i | i in Elements(x) :: i <= x[|x| - 1]
  {
    forall i: nat | i in x ensures i <= x[|x| - 1] && (i != x[|x| - 1] <==> i in x[..|x| - 1]) {
      LastIsGreatest(x, i);
    }
  }

  lemma {:induction false} IncreasingSize(x: seq<nat>)
    requires Increasing(x)
    ensures |Elements(x)| == |x|
  {
    if x != [] {
      ElementsLast(x);
      IncreasingSize(x[..|x| - 1]);
    } else {
      assert Elements(x) == {};
    }
  }

  /** An increasing list is determined by its elements. */
  lemma {:induction false} IncreasingUnique(x: seq<nat>, y: seq<nat>)
    requires Increasing(x) && Increasing(y) && Elements(x) == Elements(y)
    ensures x == y
  {
    IncreasingSize(x);
    IncreasingSize(y);
    if x != [] {
      ElementsLast(x);
      ElementsLast(y);
      hide Elements;
      IncreasingUnique(x[..|x| - 1], y[..|y| - 1]);
    }
  }
}
