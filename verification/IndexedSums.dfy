/** Sums of a weight over the elements of a sequence, used for counting and for progress measures. */
module IndexedSums {
  ghost function SumOver<T>(xs: seq<T>, f: (nat, T) -> int): int {
    if xs == [] then 0 else SumOver(xs[..|xs| - 1], f) + f(|xs| - 1, xs[|xs| - 1])
  }

  lemma {:induction false} SumOfUpdate<T>(xs: seq<T>, f: (nat, T) -> int, j: nat, x: T)
    requires j < |xs|
    ensures SumOver(xs[j := x], f) == SumOver(xs, f) - f(j, xs[j]) + f(j, x)
  {
    var last := |xs| - 1;
    if j == last {
      assert xs[j := x][..last] == xs[..last];
    } else {
      SumOfUpdate(xs[..last], f, j, x);
      assert xs[j := x][..last] == xs[..last][j := x];
    }
  }

  /** A sum of zeros and ones is the length exactly when every term is one. */
  lemma {:induction false} CountBounds<T>(xs: seq<T>, f: (nat, T) -> int)
    requires forall i: nat :: i < |xs| ==> 0 <= f(i, xs[i]) <= 1
    ensures 0 <= SumOver(xs, f) <= |xs|
    ensures SumOver(xs, f) == |xs| <==> forall i: nat :: i < |xs| ==> f(i, xs[i]) == 1
    ensures SumOver(xs, f) == 0 <==> forall i: nat :: i < |xs| ==> f(i, xs[i]) == 0
  {
    if xs != [] {
      var last := |xs| - 1;
      CountBounds(xs[..last], f);
      assert forall i: nat :: i < last ==> xs[..last][i] == xs[i];
    }
  }

  lemma {:induction false} SumNonNegative<T>(xs: seq<T>, f: (nat, T) -> int)
    requires forall i: nat :: i < |xs| ==> 0 <= f(i, xs[i])
    ensures 0 <= SumOver(xs, f)
  {
    if xs != [] {
      SumNonNegative(xs[..|xs| - 1], f);
    }
  }
}
