/** Interleavings of several lists, each list keeping its own order.

    A schedule names, step by step, the list that moves next; `Merge` is the resulting
    interleaving. `MergeProjects` and `EveryInterleavingIsAMerge` show that these are exactly the
    interleavings. */
module Schedules {

  /** Every entry names a list, and no list is asked for more elements than it has. */
  ghost predicate Valid<T>(lists: seq<seq<T>>, sched: seq<nat>) {
    forall i :: i in sched ==> i < |lists| && multiset(sched)[i] <= |lists[i]|
  }

  /** A valid schedule that uses up every list. */
  ghost predicate Complete<T>(lists: seq<seq<T>>, sched: seq<nat>) {
    && Valid(lists, sched)
    && forall i :: 0 <= i < |lists| ==> multiset(sched)[i] == |lists[i]|
  }

  ghost function Merge<T>(lists: seq<seq<T>>, sched: seq<nat>): (merged: seq<T>)
    requires Valid(lists, sched)
    ensures |merged| == |sched|
  {
    if sched == [] then []
    else
      var before, i := sched[..|sched| - 1], sched[|sched| - 1];
      assert sched == before + [i];
      DropLast(lists, before, i);
      Merge(lists, before) + [lists[i][multiset(before)[i]]]
  }

  lemma DropLast<T>(lists: seq<seq<T>>, sched: seq<nat>, i: nat)
    requires Valid(lists, sched + [i])
    ensures Valid(lists, sched)
    ensures i < |lists| && multiset(sched)[i] < |lists[i]|
  {
    assert i in sched + [i];
    forall j | j in sched ensures j < |lists| && multiset(sched)[j] <= |lists[j]| {
      assert j in sched + [i];
    }
  }

  lemma MergeStep<T>(lists: seq<seq<T>>, sched: seq<nat>, i: nat)
    requires Valid(lists, sched + [i])
    ensures Valid(lists, sched)
    ensures i < |lists| && multiset(sched)[i] < |lists[i]|
    ensures Merge(lists, sched + [i]) == Merge(lists, sched) + [lists[i][multiset(sched)[i]]]
  {
    DropLast(lists, sched, i);
    assert (sched + [i])[..|sched|] == sched;
  }

  lemma Extend<T>(lists: seq<seq<T>>, sched: seq<nat>, i: nat)
    requires Valid(lists, sched)
    requires i < |lists| && multiset(sched)[i] < |lists[i]|
    ensures Valid(lists, sched + [i])
  {
    forall j | j in sched + [i] ensures j < |lists| && multiset(sched + [i])[j] <= |lists[j]| {
      if j != i {
        assert j in sched;
      }
    }
  }

  /** The elements of `merged` that the schedule attributes to list `i`, in order. */
  ghost function Lane<T>(sched: seq<nat>, merged: seq<T>, i: nat): seq<T>
    requires |sched| == |merged|
  {
    if sched == [] then []
    else
      var last := |sched| - 1;
      Lane(sched[..last], merged[..last], i) + (if sched[last] == i then [merged[last]] else [])
  }

  lemma {:induction false} LaneLength<T>(sched: seq<nat>, merged: seq<T>, i: nat)
    requires |sched| == |merged|
    ensures |Lane(sched, merged, i)| == multiset(sched)[i]
  {
    if sched != [] {
      var last := |sched| - 1;
      LaneLength(sched[..last], merged[..last], i);
      assert sched == sched[..last] + [sched[last]];
    }
  }

  lemma {:induction false} LaneIsPart<T>(sched: seq<nat>, merged: seq<T>, i: nat)
    requires |sched| == |merged|
    ensures forall x :: x in Lane(sched, merged, i) ==> x in merged
  {
    if sched != [] {
      LaneIsPart(sched[..|sched| - 1], merged[..|sched| - 1], i);
    }
  }

  /** A complete merge contains every element of every list. */
  lemma {:induction false} CompleteMergeHasAll<T>(lists: seq<seq<T>>, sched: seq<nat>, i: nat)
    requires Complete(lists, sched) && i < |lists|
    ensures forall x :: x in lists[i] ==> x in Merge(lists, sched)
  {
    MergeProjects(lists, sched, i);
    assert lists[i][..|lists[i]|] == lists[i];
    LaneIsPart(sched, Merge(lists, sched), i);
  }

  lemma {:induction false} LaneSnoc<T>(sched: seq<nat>, merged: seq<T>, l: nat, x: T, i: nat)
    requires |sched| == |merged|
    ensures Lane(sched + [l], merged + [x], i) == Lane(sched, merged, i) + (if l == i then [x] else [])
  {
    assert (sched + [l])[..|sched|] == sched;
    assert (merged + [x])[..|merged|] == merged;
  }

  lemma {:induction false} SliceSnoc<T>(b: seq<T>, n: nat)
    requires n < |b|
    ensures b[..n] + [b[n]] == b[..n + 1]
  {
  }

  /** A merge keeps each list's own order: list `i` contributes exactly its first elements. */
  lemma {:induction false} MergeProjects<T>(lists: seq<seq<T>>, sched: seq<nat>, i: nat)
    requires Valid(lists, sched) && i < |lists|
    ensures multiset(sched)[i] <= |lists[i]|
    ensures Lane(sched, Merge(lists, sched), i) == lists[i][..multiset(sched)[i]]
    decreases |sched|
  {
    if sched != [] {
      var before: seq<nat>, l: nat := sched[..|sched| - 1], sched[|sched| - 1];
      assert sched == before + [l];
      MergeStep(lists, before, l);
      MergeProjects(lists, before, i);
      LaneSnoc(before, Merge(lists, before), l, lists[l][multiset(before)[l]], i);
      if l == i {
        SliceSnoc(lists[i], multiset(before)[i]);
      }
      assert multiset(sched)[i] == multiset(before)[i] + (if l == i then 1 else 0);
    }
  }

  /** Any sequence whose lanes are prefixes of the lists is the merge of its own schedule. */
  lemma {:induction false} EveryInterleavingIsAMerge<T>(lists: seq<seq<T>>, sched: seq<nat>, merged: seq<T>)
    requires |sched| == |merged|
    requires forall i :: i in sched ==> i < |lists|
    requires forall i :: 0 <= i < |lists| ==> Lane(sched, merged, i) <= lists[i]
    ensures Valid(lists, sched) && merged == Merge(lists, sched)
  {
    if sched == [] {
      assert merged == [];
    } else {
      var last := |sched| - 1;
      var before, l := sched[..last], sched[last];
      assert sched == before + [l];
      forall i | 0 <= i < |lists| ensures Lane(before, merged[..last], i) <= lists[i] {
        assert Lane(before, merged[..last], i) <= Lane(sched, merged, i);
      }
      forall i | i in before ensures i < |lists| {
        assert i in sched;
      }
      EveryInterleavingIsAMerge(lists, before, merged[..last]);
      assert l in sched;
      LaneLength(sched, merged, l);
      LaneLength(before, merged[..last], l);
      assert Lane(sched, merged, l)[multiset(before)[l]] == merged[last];
      Extend(lists, before, l);
      MergeStep(lists, before, l);
      assert merged == merged[..last] + [merged[last]];
    }
  }

  /** The schedule that runs the first `k` lists one after another. */
  ghost function Sequential<T>(lists: seq<seq<T>>, k: nat): seq<nat>
    requires k <= |lists|
  {
    if k == 0 then [] else Sequential(lists, k - 1) + Repeat(k - 1, |lists[k - 1]|)
  }

  ghost function Repeat(i: nat, n: nat): (r: seq<nat>)
    ensures |r| == n
    ensures multiset(r)[i] == n
    ensures forall j :: j in r ==> j == i
  {
    if n == 0 then [] else Repeat(i, n - 1) + [i]
  }

  lemma CountAppended(sched: seq<nat>, i: nat, n: nat, j: nat)
    ensures multiset(sched + Repeat(i, n))[j] == multiset(sched)[j] + (if i == j then n else 0)
  {
    if i != j {
      assert j !in Repeat(i, n);
    }
  }

  ghost function Flatten<T>(lists: seq<seq<T>>): seq<T> {
    if lists == [] then [] else Flatten(lists[..|lists| - 1]) + lists[|lists| - 1]
  }

  lemma RepeatSnoc(sched: seq<nat>, i: nat, n: nat)
    requires 0 < n
    ensures sched + Repeat(i, n) == sched + Repeat(i, n - 1) + [i]
  {
  }

  lemma SnocSlice<T>(a: seq<T>, b: seq<T>, n: nat)
    requires n < |b|
    ensures a + b[..n] + [b[n]] == a + b[..n + 1]
  {
  }

  lemma MergeOneMore<T>(lists: seq<seq<T>>, sched: seq<nat>, before: seq<nat>, after: seq<nat>, i: nat, done: nat)
    requires Valid(lists, sched) && Valid(lists, before) && after == before + [i]
    requires i < |lists| && multiset(before)[i] == done < |lists[i]|
    requires Merge(lists, before) == Merge(lists, sched) + lists[i][..done]
    ensures Valid(lists, after)
    ensures Merge(lists, after) == Merge(lists, sched) + lists[i][..done + 1]
    ensures multiset(after)[i] == done + 1
  {
    Extend(lists, before, i);
    MergeStep(lists, before, i);
    SnocSlice(Merge(lists, sched), lists[i], done);
  }

  lemma FlattenSnoc<T>(lists: seq<seq<T>>, k: nat)
    requires 0 < k <= |lists|
    ensures Flatten(lists[..k]) == Flatten(lists[..k - 1]) + lists[k - 1][..|lists[k - 1]|]
  {
    assert lists[..k][..k - 1] == lists[..k - 1];
    assert lists[k - 1][..|lists[k - 1]|] == lists[k - 1];
  }

  lemma {:induction false} MergeRepeat<T>(lists: seq<seq<T>>, sched: seq<nat>, i: nat, n: nat)
    requires Valid(lists, sched) && i < |lists| && multiset(sched)[i] == 0 && n <= |lists[i]|
    ensures Valid(lists, sched + Repeat(i, n))
    ensures Merge(lists, sched + Repeat(i, n)) == Merge(lists, sched) + lists[i][..n]
    ensures multiset(sched + Repeat(i, n))[i] == n
  {
    if n == 0 {
      assert sched + Repeat(i, n) == sched;
    } else {
      MergeRepeat(lists, sched, i, n - 1);
      RepeatSnoc(sched, i, n);
      MergeOneMore(lists, sched, sched + Repeat(i, n - 1), sched + Repeat(i, n), i, n - 1);
    }
  }

  ghost predicate CountsUpTo<T>(lists: seq<seq<T>>, sched: seq<nat>, k: nat) {
    forall i :: 0 <= i < |lists| ==> multiset(sched)[i] == if i < k then |lists[i]| else 0
  }

  lemma {:induction false} CountsStep<T>(lists: seq<seq<T>>, sched: seq<nat>, k: nat)
    requires 0 < k <= |lists| && CountsUpTo(lists, sched, k - 1)
    ensures CountsUpTo(lists, sched + Repeat(k - 1, |lists[k - 1]|), k)
  {
    forall i | 0 <= i < |lists|
      ensures multiset(sched + Repeat(k - 1, |lists[k - 1]|))[i] == if i < k then |lists[i]| else 0
    {
      CountAppended(sched, k - 1, |lists[k - 1]|, i);
    }
  }

  lemma {:induction false} SequentialCounts<T>(lists: seq<seq<T>>, k: nat)
    requires k <= |lists|
    ensures CountsUpTo(lists, Sequential(lists, k), k)
  {
    if k > 0 {
      SequentialCounts(lists, k - 1);
      CountsStep(lists, Sequential(lists, k - 1), k);
    }
  }

  lemma {:induction false} SequentialUnused<T>(lists: seq<seq<T>>, k: nat)
    requires k < |lists|
    ensures multiset(Sequential(lists, k))[k] == 0
  {
    SequentialCounts(lists, k);
  }

  lemma {:induction false} SequentialStep<T>(lists: seq<seq<T>>, before: seq<nat>, after: seq<nat>, k: nat)
    requires k < |lists| && after == before + Repeat(k, |lists[k]|)
    requires Valid(lists, before) && multiset(before)[k] == 0 && Merge(lists, before) == Flatten(lists[..k])
    ensures Valid(lists, after) && Merge(lists, after) == Flatten(lists[..k + 1])
  {
    MergeRepeat(lists, before, k, |lists[k]|);
    FlattenSnoc(lists, k + 1);
  }

  lemma {:induction false} SequentialUnfold<T>(lists: seq<seq<T>>, j: nat)
    requires j < |lists|
    ensures Sequential(lists, j + 1) == Sequential(lists, j) + Repeat(j, |lists[j]|)
  {
  }

  /** Issuing the lists one after another is one of the interleavings. */
  lemma {:induction false} SequentialIsSchedule<T>(lists: seq<seq<T>>, k: nat)
    requires k <= |lists|
    ensures Valid(lists, Sequential(lists, k))
    ensures Merge(lists, Sequential(lists, k)) == Flatten(lists[..k])
  {
    if k == 0 {
      assert Sequential(lists, k) == [] && lists[..k] == [];
    } else {
      var j := k - 1;
      SequentialIsSchedule(lists, j);
      SequentialUnused(lists, j);
      SequentialUnfold(lists, j);
      SequentialStep(lists, Sequential(lists, j), Sequential(lists, k), j);
    }
  }
}
