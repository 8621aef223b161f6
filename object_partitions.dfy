/**
 * src/suturo_blenderproc/sampler/object_partitions.py: the objects to place
 * are shuffled, cut to a multiple of the number of partitions K and split
 * into K groups, by one of three policies.
 *
 * The random draws are parameters: `swaps` are the positions the shuffle
 * swaps with, `orders` the argsort permutations of the UNIQUE policy (the
 * sort is not stable, so any sorting permutation may come out) and `draws`
 * the indices `np.random.choice` returns in the LESS_PROBABLE policy.
 */
module ObjectPartitions {
  import opened Wrappers
  import opened Strings
  import opened SceneTypes

  datatype PartitionType = EqualObjects | UniqueObjects | LessProbableObjects

  /** What `create_partition` returns: the flat shuffled array (K <= 1), or the groups. */
  datatype Partitioning = Flat(objects: seq<MeshObject>) | Groups(groups: seq<seq<MeshObject>>)

  /** The identity of an object: its name up to the first '.'. */
  function Key(o: MeshObject): string
  {
    BaseName(o.name)
  }

  function Keys(objects: seq<MeshObject>): (r: seq<string>)
    ensures |r| == |objects| && forall k :: 0 <= k < |objects| ==> r[k] == Key(objects[k])
  {
    seq(|objects|, k requires 0 <= k < |objects| => Key(objects[k]))
  }

  // ---------------------------------------------------------------------
  // Python's `%` and the truncation to a multiple of K.

  /** Python's `a % b`: the remainder takes the sign of `b`. */
  function PyMod(a: int, b: int): (r: int)
    requires b != 0
    ensures b > 0 ==> 0 <= r < b && r == a % b
    ensures b < 0 ==> b < r <= 0
  {
    var e := a % b;
    if b < 0 && e != 0 then e + b else e
  }

  /** `objects[0:n - n % k]` for an `n`-element array: the slice end is clipped to the array. */
  function KeptCount(n: nat, k: int): (m: nat)
    requires k != 0
    ensures m <= n
    ensures k > 0 ==> m == k * (n / k) && n - k < m
    ensures k < 0 ==> m == n
  {
    var end := n - PyMod(n, k);
    if end > n then n else end
  }

  // ---------------------------------------------------------------------
  // `np.random.shuffle`: Fisher-Yates from the top, position i swapped with
  // `swaps[i]` in [0, i].

  predicate SwapsFit(swaps: seq<int>, n: nat)
  {
    |swaps| == n && forall i :: 1 <= i < n ==> 0 <= swaps[i] <= i
  }

  function Swap(s: seq<MeshObject>, i: nat, j: nat): (r: seq<MeshObject>)
    requires i < |s| && j < |s|
    ensures |r| == |s|
  {
    s[i := s[j]][j := s[i]]
  }

  lemma SwapPermutes(s: seq<MeshObject>, i: nat, j: nat)
    requires i < |s| && j < |s|
    ensures multiset(Swap(s, i, j)) == multiset(s)
  {
  }

  /** The array after positions `|s| - 1` down to `m` have been swapped. */
  function ShuffleDown(s: seq<MeshObject>, swaps: seq<int>, m: nat): (r: seq<MeshObject>)
    requires SwapsFit(swaps, |s|) && 1 <= m <= |s|
    ensures |r| == |s|
    decreases |s| - m
  {
    if m == |s| then s else Swap(ShuffleDown(s, swaps, m + 1), m, swaps[m])
  }

  function Shuffled(s: seq<MeshObject>, swaps: seq<int>): seq<MeshObject>
    requires SwapsFit(swaps, |s|)
  {
    if s == [] then s else ShuffleDown(s, swaps, 1)
  }

  /** Shuffling only reorders. */
  lemma {:induction false} ShuffleDownPermutes(s: seq<MeshObject>, swaps: seq<int>, m: nat)
    requires SwapsFit(swaps, |s|) && 1 <= m <= |s|
    ensures |ShuffleDown(s, swaps, m)| == |s| && multiset(ShuffleDown(s, swaps, m)) == multiset(s)
    decreases |s| - m
  {
    if m < |s| {
      ShuffleDownPermutes(s, swaps, m + 1);
      var prev := ShuffleDown(s, swaps, m + 1);
      assert ShuffleDown(s, swaps, m) == Swap(prev, m, swaps[m]);
      SwapPermutes(prev, m, swaps[m]);
    }
  }

  lemma ShuffledPermutes(s: seq<MeshObject>, swaps: seq<int>)
    requires SwapsFit(swaps, |s|)
    ensures |Shuffled(s, swaps)| == |s| && multiset(Shuffled(s, swaps)) == multiset(s)
  {
    if s != [] {
      ShuffleDownPermutes(s, swaps, 1);
    }
  }

  /** The in-place shuffle of the array. */
  method Shuffle(a: array<MeshObject>, swaps: seq<int>)
    requires SwapsFit(swaps, a.Length)
    modifies a
    ensures a[..] == Shuffled(old(a[..]), swaps)
  {
    ghost var s := a[..];
    if a.Length == 0 {
      return;
    }
    var m := a.Length;
    while m > 1
      invariant 1 <= m <= a.Length
      invariant a[..] == ShuffleDown(s, swaps, m)
    {
      m := m - 1;
      var j := swaps[m];
      ghost var prev := a[..];
      a[m], a[j] := a[j], a[m];
      assert a[..] == Swap(prev, m, j);
    }
  }

  /** The shuffled objects, cut to `objects[0:n - n % k]`. */
  function Pool(objects: seq<MeshObject>, swaps: seq<int>, k: int): (r: seq<MeshObject>)
    requires SwapsFit(swaps, |objects|) && k != 0
    ensures |r| == KeptCount(|objects|, k)
  {
    ShuffledPermutes(objects, swaps);
    Shuffled(objects, swaps)[..KeptCount(|objects|, k)]
  }

  /** The pool holds only objects of the list, and each no more often than there. */
  lemma PoolFromObjects(objects: seq<MeshObject>, swaps: seq<int>, k: int)
    requires SwapsFit(swaps, |objects|) && k != 0
    ensures multiset(Pool(objects, swaps, k)) <= multiset(objects)
    ensures k == 1 || k < 0 ==> multiset(Pool(objects, swaps, k)) == multiset(objects)
  {
    var sh := Shuffled(objects, swaps);
    ShuffledPermutes(objects, swaps);
    var m := KeptCount(|objects|, k);
    assert sh == sh[..m] + sh[m..];
    assert multiset(sh) == multiset(sh[..m]) + multiset(sh[m..]);
    if k == 1 || k < 0 {
      assert sh[..m] == sh;
    }
  }

  // ---------------------------------------------------------------------
  // `np.split(objects, k)`: k contiguous groups of the same size.

  function Flatten(groups: seq<seq<MeshObject>>): seq<MeshObject>
  {
    if groups == [] then [] else Flatten(groups[..|groups| - 1]) + groups[|groups| - 1]
  }

  lemma MulStep(n: int, m: int)
    ensures n * m + m == (n + 1) * m
  {
  }

  function Split(s: seq<MeshObject>, k: nat, size: nat): (r: seq<seq<MeshObject>>)
    requires |s| == k * size
    ensures |r| == k && forall i :: 0 <= i < k ==> |r[i]| == size
    decreases k
  {
    if k == 0 then []
    else
      MulStep(k - 1, size);
      Split(s[..(k - 1) * size], k - 1, size) + [s[(k - 1) * size..]]
  }

  /** The groups are `k` contiguous pieces of `size` objects whose concatenation is the pool. */
  lemma {:induction false} SplitProperties(s: seq<MeshObject>, k: nat, size: nat)
    requires |s| == k * size
    ensures var r := Split(s, k, size);
      |r| == k && (forall i :: 0 <= i < k ==> |r[i]| == size) && Flatten(r) == s
    decreases k
  {
    if k > 0 {
      MulStep(k - 1, size);
      var cut := (k - 1) * size;
      var front := Split(s[..cut], k - 1, size);
      SplitProperties(s[..cut], k - 1, size);
      var r := Split(s, k, size);
      assert r[..k - 1] == front;
      assert Flatten(r) == Flatten(front) + s[cut..];
      assert s == s[..cut] + s[cut..];
    }
  }

  // ---------------------------------------------------------------------
  // UNIQUE_OBJECTS, per group.

  /** `order` is a permutation of the group's positions that sorts the keys (as `np.argsort` does). */
  predicate SortsByKey(keys: seq<string>, order: seq<int>)
  {
    && |order| == |keys|
    && (forall a :: 0 <= a < |order| ==> 0 <= order[a] < |keys|)
    && (forall a, b :: 0 <= a < b < |order| ==> order[a] != order[b])
    && (forall a :: 0 <= a < |order| - 1 ==> LexLe(keys[order[a]], keys[order[a + 1]]))
  }

  function Permute<T>(s: seq<T>, order: seq<int>): (r: seq<T>)
    requires forall a :: 0 <= a < |order| ==> 0 <= order[a] < |s|
    ensures |r| == |order| && forall a :: 0 <= a < |order| ==> r[a] == s[order[a]]
  {
    seq(|order|, a requires 0 <= a < |order| => s[order[a]])
  }

  /**
   * The run lengths of a sequence: on a sorted sequence these are the counts
   * `np.unique(..., return_counts=True)` reports, one per distinct value in
   * increasing order.
   */
  function Runs(s: seq<string>): (r: seq<nat>)
    ensures |r| <= |s| && (|r| == 0 <==> |s| == 0)
    ensures forall j :: 0 <= j < |r| ==> r[j] >= 1
  {
    if s == [] then []
    else
      var init := s[..|s| - 1];
      var runs := Runs(init);
      if init != [] && init[|init| - 1] == s[|s| - 1] then runs[..|runs| - 1] + [runs[|runs| - 1] + 1]
      else runs + [1]
  }

  /** Without two equal neighbours every run has length 1. */
  lemma {:induction false} RunsOfDistinct(s: seq<string>)
    requires forall a :: 0 <= a < |s| - 1 ==> s[a] != s[a + 1]
    ensures forall j :: 0 <= j < |Runs(s)| ==> Runs(s)[j] == 1
  {
    if s != [] {
      RunsOfDistinct(s[..|s| - 1]);
    }
  }

  /** `np.delete(s, np.s_[lo:hi])`: the slice bounds are clipped to the array. */
  function DeleteSlice<T>(s: seq<T>, lo: nat, hi: nat): (r: seq<T>)
    ensures |r| <= |s|
  {
    var from := if lo < |s| then lo else |s|;
    var to := if hi < from then from else if hi < |s| then hi else |s|;
    s[..from] + s[to..]
  }

  /**
   * The group UNIQUE_OBJECTS produces, as written: for every `j` with
   * `counts[j] > 1`, `sorted` with positions `j+1 .. j+counts[j]-1` deleted
   * replaces the group, so only the last such `j` counts; without any, the
   * group stays as it was (unsorted).
   */
  function UniqueAsWritten<T>(group: seq<T>, sorted: seq<T>, counts: seq<nat>): seq<T>
  {
    if counts == [] then group
    else
      var j := |counts| - 1;
      if counts[j] > 1 then DeleteSlice(sorted, j + 1, j + counts[j])
      else UniqueAsWritten(group, sorted, counts[..j])
  }

  /** No group grows: every result group is at most `n div k` long. */
  lemma {:induction false} UniqueAsWrittenShorter<T>(group: seq<T>, sorted: seq<T>, counts: seq<nat>)
    requires |sorted| == |group|
    ensures |UniqueAsWritten(group, sorted, counts)| <= |group|
  {
    if counts != [] && counts[|counts| - 1] <= 1 {
      UniqueAsWrittenShorter(group, sorted, counts[..|counts| - 1]);
    }
  }

  /** Without a repeated identity the group is returned as it was. */
  lemma {:induction false} UniqueAsWrittenUnchanged<T>(group: seq<T>, sorted: seq<T>, counts: seq<nat>)
    requires forall j :: 0 <= j < |counts| ==> counts[j] <= 1
    ensures UniqueAsWritten(group, sorted, counts) == group
  {
    if counts != [] {
      UniqueAsWrittenUnchanged(group, sorted, counts[..|counts| - 1]);
    }
  }

  lemma UniqueAsWrittenStep<T>(group: seq<T>, sorted: seq<T>, counts: seq<nat>, j: nat)
    requires j < |counts|
    ensures UniqueAsWritten(group, sorted, counts[..j + 1]) ==
      if counts[j] > 1 then DeleteSlice(sorted, j + 1, j + counts[j]) else UniqueAsWritten(group, sorted, counts[..j])
  {
    assert counts[..j + 1][..j] == counts[..j];
  }

  /** The UNIQUE_OBJECTS group for the argsort permutation `order`, as written. */
  function UniqueOf(group: seq<MeshObject>, order: seq<int>): seq<MeshObject>
    requires SortsByKey(Keys(group), order)
  {
    UniqueAsWritten(group, Permute(group, order), Runs(Permute(Keys(group), order)))
  }

  /** One group of UNIQUE_OBJECTS (the loop body of `create_partition` for `partitions[i]`). */
  method UniqueGroup(group: seq<MeshObject>, order: seq<int>) returns (g: seq<MeshObject>)
    requires SortsByKey(Keys(group), order)
    ensures g == UniqueOf(group, order)
  {
    var row := Keys(group);
    var count := Runs(Permute(row, order));
    var objectsSorted := Permute(group, order);
    g := group;
    for j := 0 to |count|
      invariant g == UniqueAsWritten(group, objectsSorted, count[..j])
    {
      UniqueAsWrittenStep(group, objectsSorted, count, j);
      if count[j] > 1 {
        g := DeleteSlice(objectsSorted, j + 1, j + count[j]);
      }
    }
    assert count[..|count|] == count;
  }

  /** Reordering pairwise different keys keeps neighbours different. */
  lemma PermuteKeepsDistinct(keys: seq<string>, order: seq<int>)
    requires forall a :: 0 <= a < |order| ==> 0 <= order[a] < |keys|
    requires forall a, b :: 0 <= a < b < |order| ==> order[a] != order[b]
    requires forall a, b :: 0 <= a < b < |keys| ==> keys[a] != keys[b]
    ensures forall a :: 0 <= a < |order| - 1 ==> Permute(keys, order)[a] != Permute(keys, order)[a + 1]
  {
    forall a | 0 <= a < |order| - 1
      ensures keys[order[a]] != keys[order[a + 1]]
    {
      var x, y := order[a], order[a + 1];
      assert x != y;
      if x < y {
        assert keys[x] != keys[y];
      } else {
        assert keys[y] != keys[x];
      }
    }
  }

  /** A group whose identities are all different comes back unchanged, in its shuffled order. */
  lemma DistinctGroupUnchanged(group: seq<MeshObject>, order: seq<int>)
    requires SortsByKey(Keys(group), order)
    requires forall a, b :: 0 <= a < b < |group| ==> Key(group[a]) != Key(group[b])
    ensures UniqueOf(group, order) == group
  {
    var keys := Keys(group);
    assert forall a, b :: 0 <= a < b < |keys| ==> keys[a] != keys[b];
    PermuteKeepsDistinct(keys, order);
    RunsOfDistinct(Permute(keys, order));
    UniqueAsWrittenUnchanged(group, Permute(group, order), Runs(Permute(keys, order)));
  }

  lemma RunsOfTwoPairs(x: string, y: string)
    requires x != y
    ensures Runs([x, x, y, y]) == [2, 2]
  {
    var s := [x, x, y, y];
    assert s[..1] == [x] && s[..2] == [x, x] && s[..3] == [x, x, y];
    assert [x][..0] == [];
    assert Runs([x]) == [1];
    assert [x, x][..1] == [x];
    assert Runs([x, x]) == [2];
    assert [x, x, y][..2] == [x, x];
    assert Runs([x, x, y]) == [2, 1];
  }

  lemma UniqueAsWrittenKeepsDuplicate(group: seq<MeshObject>, order: seq<int>)
    requires SortsByKey(Keys(group), order)
    requires Permute(Keys(group), order) == ["a", "a", "b", "b"]
    ensures var r := UniqueOf(group, order);
      |r| == 3 && Key(r[0]) == Key(r[1]) == "a"
  {
    var sortedKeys := Permute(Keys(group), order);
    RunsOfTwoPairs("a", "b");
    var counts := Runs(sortedKeys);
    assert counts == [2, 2];
    var sorted := Permute(group, order);
    assert UniqueAsWritten(group, sorted, counts) == DeleteSlice(sorted, 2, 3);
    var r := DeleteSlice(sorted, 2, 3);
    assert r == sorted[..2] + sorted[3..];
    assert Key(r[0]) == sortedKeys[0] && Key(r[1]) == sortedKeys[1];
  }

  /**
   * The evident intent: one object per identity. The first object of every
   * run of equal keys in the sorted group is kept.
   */
  function DedupByKey(sorted: seq<MeshObject>): (r: seq<MeshObject>)
    ensures |r| <= |sorted|
    ensures sorted != [] ==> r != [] && r[|r| - 1] in sorted && Key(r[|r| - 1]) == Key(sorted[|sorted| - 1])
  {
    if sorted == [] then []
    else
      var init := sorted[..|sorted| - 1];
      var last := sorted[|sorted| - 1];
      if init != [] && Key(init[|init| - 1]) == Key(last) then DedupByKey(init)
      else DedupByKey(init) + [last]
  }

  predicate KeysSorted(s: seq<MeshObject>)
  {
    forall a :: 0 <= a < |s| - 1 ==> LexLe(Key(s[a]), Key(s[a + 1]))
  }

  predicate KeysStrictlyIncreasing(s: seq<MeshObject>)
  {
    forall a :: 0 <= a < |s| - 1 ==> LexLess(Key(s[a]), Key(s[a + 1]))
  }

  lemma {:induction false} StrictlyIncreasingDistinct(s: seq<MeshObject>, a: nat, b: nat)
    requires KeysStrictlyIncreasing(s) && a < b < |s|
    ensures LexLess(Key(s[a]), Key(s[b]))
    decreases b - a
  {
    if a + 1 < b {
      StrictlyIncreasingDistinct(s, a + 1, b);
      LexLessTransitive(Key(s[a]), Key(s[a + 1]), Key(s[b]));
    }
  }

  /**
   * On a group sorted by identity, the corrected rule keeps objects of the
   * group only, their identities strictly increase (so no two share one),
   * and every identity of the group is still present.
   */
  lemma {:induction false} DedupByKeyCorrect(sorted: seq<MeshObject>)
    requires KeysSorted(sorted)
    ensures var r := DedupByKey(sorted);
      && (forall a :: 0 <= a < |r| ==> r[a] in sorted)
      && (forall a, b :: 0 <= a < b < |r| ==> Key(r[a]) != Key(r[b]))
      && CoversKeys(r, sorted)
  {
    var r := DedupByKey(sorted);
    DedupIncreasing(sorted);
    forall a, b | 0 <= a < b < |r|
      ensures Key(r[a]) != Key(r[b])
    {
      StrictlyIncreasingDistinct(r, a, b);
      LexLessIrreflexive(Key(r[a]));
    }
    DedupCovers(sorted);
  }

  lemma {:induction false} DedupIncreasing(sorted: seq<MeshObject>)
    requires KeysSorted(sorted)
    ensures KeysStrictlyIncreasing(DedupByKey(sorted))
    ensures forall a :: 0 <= a < |DedupByKey(sorted)| ==> DedupByKey(sorted)[a] in sorted
  {
    if sorted != [] {
      var init := sorted[..|sorted| - 1];
      var last := sorted[|sorted| - 1];
      assert KeysSorted(init);
      DedupIncreasing(init);
      var d := DedupByKey(init);
      if !(init != [] && Key(init[|init| - 1]) == Key(last)) && init != [] {
        assert Key(d[|d| - 1]) == Key(init[|init| - 1]);
        assert LexLe(Key(init[|init| - 1]), Key(last));
      }
    }
  }

  /** Every identity of `s` is the identity of some object of `r`. */
  predicate CoversKeys(r: seq<MeshObject>, s: seq<MeshObject>)
  {
    forall a :: 0 <= a < |s| ==> exists b :: 0 <= b < |r| && Key(r[b]) == Key(s[a])
  }

  lemma {:induction false} DedupCovers(sorted: seq<MeshObject>)
    ensures CoversKeys(DedupByKey(sorted), sorted)
  {
    if sorted != [] {
      var init := sorted[..|sorted| - 1];
      var last := sorted[|sorted| - 1];
      DedupCovers(init);
      var d := DedupByKey(init);
      var r := DedupByKey(sorted);
      assert d <= r;
      forall a | 0 <= a < |sorted|
        ensures exists b :: 0 <= b < |r| && Key(r[b]) == Key(sorted[a])
      {
        if a < |init| {
          assert sorted[a] == init[a];
          var b :| 0 <= b < |d| && Key(d[b]) == Key(init[a]);
          assert r[b] == d[b];
        } else {
          var b := |r| - 1;
          assert Key(r[b]) == Key(sorted[a]);
        }
      }
    }
  }

  // ---------------------------------------------------------------------
  // LESS_PROBABLE_OBJECTS: weighted draws without replacement.

  function Sum(p: seq<real>): real
  {
    if p == [] then 0.0 else Sum(p[..|p| - 1]) + p[|p| - 1]
  }

  /** Every weight is positive. */
  predicate Positive(p: seq<real>)
  {
    forall k :: 0 <= k < |p| ==> p[k] > 0.0
  }

  lemma {:induction false} SumPositive(p: seq<real>)
    requires p != [] && Positive(p)
    ensures Sum(p) > 0.0
  {
    if |p| > 1 {
      assert Positive(p[..|p| - 1]);
      SumPositive(p[..|p| - 1]);
    }
  }

  lemma {:induction false} SumConstant(n: nat, c: real)
    ensures Sum(seq(n, k => c)) == n as real * c
  {
    if n > 0 {
      assert seq(n, k => c)[..n - 1] == seq(n - 1, k => c);
      SumConstant(n - 1, c);
    }
  }

  lemma DivAdd(a: real, b: real, t: real)
    requires t != 0.0
    ensures a / t + b / t == (a + b) / t
  {
  }

  function Divided(p: seq<real>, t: real): (q: seq<real>)
    requires t != 0.0
    ensures |q| == |p| && forall k :: 0 <= k < |p| ==> q[k] == p[k] / t
  {
    seq(|p|, k requires 0 <= k < |p| => p[k] / t)
  }

  lemma {:induction false} SumDivided(p: seq<real>, t: real)
    requires t != 0.0
    ensures Sum(Divided(p, t)) == Sum(p) / t
  {
    if p != [] {
      var n := |p| - 1;
      assert Divided(p, t)[..n] == Divided(p[..n], t);
      SumDivided(p[..n], t);
      DivAdd(Sum(p[..n]), p[n], t);
    }
  }

  /** `np.repeat(1 / n, n)`: the uniform distribution over the `n` remaining objects (`n = 0` divides by zero). */
  function UniformProbabilities(n: nat): (p: seq<real>)
    requires n > 0
    ensures |p| == n
    ensures forall k :: 0 <= k < n ==> p[k] == 1.0 / n as real
    ensures Positive(p) && Sum(p) == 1.0
  {
    var c := 1.0 / n as real;
    SumConstant(n, c);
    seq(n, k => c)
  }

  /** `probabilities /= np.sum(probabilities)`; an empty vector stays empty. */
  function Normalize(p: seq<real>): (q: seq<real>)
    ensures |q| == |p|
    ensures p != [] && Positive(p) ==> Sum(q) == 1.0 && Positive(q)
  {
    var t := Sum(p);
    assert p != [] && Positive(p) ==> t > 0.0 by {
      if p != [] && Positive(p) {
        SumPositive(p);
      }
    }
    if t == 0.0 then p
    else
      SumDivided(p, t);
      Divided(p, t)
  }

  function RemoveAt<T>(s: seq<T>, i: nat): (r: seq<T>)
    requires i < |s|
    ensures |r| == |s| - 1
    ensures forall k :: 0 <= k < i ==> r[k] == s[k]
    ensures forall k :: i <= k < |r| ==> r[k] == s[k + 1]
  {
    s[..i] + s[i + 1..]
  }

  lemma RemoveAtMultiset<T>(s: seq<T>, i: nat)
    requires i < |s|
    ensures multiset(RemoveAt(s, i)) + multiset{s[i]} == multiset(s)
  {
    assert s == s[..i] + [s[i]] + s[i + 1..];
  }

  /**
   * One draw's update of the weights: every weight of the drawn identity
   * (the drawn object's own included) is multiplied by the factor, the drawn
   * object's weight is removed, and the rest is normalised. With a positive
   * factor the weights stay positive and sum to 1.
   */
  function Reweigh(p: seq<real>, names: seq<string>, sel: nat, factor: real): (q: seq<real>)
    requires |names| == |p| && sel < |p|
    ensures |q| == |p| - 1
    ensures factor > 0.0 && Positive(p) ==> Positive(q) && (q != [] ==> Sum(q) == 1.0)
  {
    var scaled := seq(|p|, k requires 0 <= k < |p| => if names[k] == names[sel] then p[k] * factor else p[k]);
    var removed := RemoveAt(scaled, sel);
    assert factor > 0.0 && Positive(p) ==> Positive(removed) by {
      if factor > 0.0 && Positive(p) {
        forall k | 0 <= k < |scaled| ensures scaled[k] > 0.0 {
          MulPositive(p[k], factor);
        }
      }
    }
    Normalize(removed)
  }

  lemma MulPositive(a: real, b: real)
    requires a > 0.0 && b > 0.0
    ensures a * b > 0.0
  {
  }

  /** Draw `t` comes from `np.arange(num_objects)`, `num_objects` being `n - t`. */
  predicate DrawsFit(draws: seq<int>, n: int)
  {
    forall t :: 0 <= t < |draws| ==> 0 <= draws[t] < n - t
  }

  /** The objects remaining after the first `t` draws. */
  function Remaining<T>(pool: seq<T>, draws: seq<int>, t: nat): (r: seq<T>)
    requires DrawsFit(draws, |pool|) && t <= |draws| && t <= |pool|
    ensures |r| == |pool| - t
  {
    if t == 0 then pool
    else RemoveAt(Remaining(pool, draws, t - 1), draws[t - 1])
  }

  /** The objects the first `t` draws pick, in the order drawn. */
  function Picks<T>(pool: seq<T>, draws: seq<int>, t: nat): (r: seq<T>)
    requires DrawsFit(draws, |pool|) && t <= |draws| && t <= |pool|
    ensures |r| == t
  {
    if t == 0 then []
    else Picks(pool, draws, t - 1) + [Remaining(pool, draws, t - 1)[draws[t - 1]]]
  }

  /** Each object is picked at most once: what is picked and what remains make up the pool. */
  lemma {:induction false} PicksAndRemaining<T>(pool: seq<T>, draws: seq<int>, t: nat)
    requires DrawsFit(draws, |pool|) && t <= |draws| && t <= |pool|
    ensures multiset(Picks(pool, draws, t)) + multiset(Remaining(pool, draws, t)) == multiset(pool)
  {
    if t > 0 {
      PicksAndRemaining(pool, draws, t - 1);
      var prev := Remaining(pool, draws, t - 1);
      var x := prev[draws[t - 1]];
      RemoveAtMultiset(prev, draws[t - 1]);
      assert Picks(pool, draws, t) == Picks(pool, draws, t - 1) + [x];
      assert Remaining(pool, draws, t) == RemoveAt(prev, draws[t - 1]);
    }
  }

  /** Drawing as many times as there are objects picks every object exactly once. */
  lemma PicksPermute(pool: seq<MeshObject>, draws: seq<int>)
    requires DrawsFit(draws, |pool|) && |draws| == |pool|
    ensures multiset(Picks(pool, draws, |draws|)) == multiset(pool)
  {
    PicksAndRemaining(pool, draws, |draws|);
  }

  lemma FlattenAppend(groups: seq<seq<MeshObject>>, g: seq<MeshObject>)
    ensures Flatten(groups + [g]) == Flatten(groups) + g
  {
    assert (groups + [g])[..|groups|] == groups;
  }

  lemma KeysRemoveAt(objects: seq<MeshObject>, i: nat)
    requires i < |objects|
    ensures Keys(RemoveAt(objects, i)) == RemoveAt(Keys(objects), i)
  {
  }

  /** Draw `start + j` extends the picks by the drawn object and removes it, and its name, from what remains. */
  lemma DrawStep(pool: seq<MeshObject>, draws: seq<int>, start: nat, t: nat, row: seq<MeshObject>,
                 objects: seq<MeshObject>, objectNames: seq<string>)
    requires DrawsFit(draws, |pool|) && start <= t < |draws| <= |pool|
    requires Picks(pool, draws, start) + row == Picks(pool, draws, t)
    requires objects == Remaining(pool, draws, t) && objectNames == Keys(objects)
    ensures 0 <= draws[t] < |objects|
    ensures Picks(pool, draws, start) + (row + [objects[draws[t]]]) == Picks(pool, draws, t + 1)
    ensures RemoveAt(objects, draws[t]) == Remaining(pool, draws, t + 1)
    ensures RemoveAt(objectNames, draws[t]) == Keys(RemoveAt(objects, draws[t]))
  {
    var x := objects[draws[t]];
    assert Picks(pool, draws, t + 1) == Picks(pool, draws, t) + [x];
    assert Picks(pool, draws, start) + (row + [x]) == (Picks(pool, draws, start) + row) + [x];
    KeysRemoveAt(objects, draws[t]);
  }

  /** Where each of `k` rows of `size` objects starts, and where the last one ends. */
  function RowStarts(k: nat, size: nat): (r: seq<nat>)
    ensures |r| == k + 1 && r[0] == 0 && r[k] == k * size
    ensures forall i :: 0 <= i < k ==> r[i + 1] == r[i] + size
    ensures forall i :: 0 <= i <= k ==> r[i] <= r[k]
  {
    if k == 0 then [0]
    else
      var front := RowStarts(k - 1, size);
      MulStep(k - 1, size);
      front + [front[k - 1] + size]
  }

  /**
   * The draws of one partition (the inner loop over `j`): weights reset to
   * uniform over the `num_objects` remaining objects, then `size` draws, each
   * removing the drawn object, its name and its weight in lockstep and
   * reweighing the rest.
   */
  method DrawPartition(pool: seq<MeshObject>, draws: seq<int>, factor: real, size: nat,
                       drawn: nat, objects: seq<MeshObject>, objectNames: seq<string>, numObjects: nat)
    returns (row: seq<MeshObject>, objects': seq<MeshObject>, objectNames': seq<string>, numObjects': nat)
    requires factor > 0.0
    requires DrawsFit(draws, |pool|) && |draws| == |pool|
    requires numObjects == |objects| && 0 < size <= |objects| && drawn + |objects| == |pool|
    requires objects == Remaining(pool, draws, drawn) && objectNames == Keys(objects)
    ensures numObjects' == |objects'| == |objects| - size
    ensures |row| == size
    ensures Picks(pool, draws, drawn) + row == Picks(pool, draws, drawn + size)
    ensures objects' == Remaining(pool, draws, drawn + size) && objectNames' == Keys(objects')
  {
    objects', objectNames', numObjects' := objects, objectNames, numObjects;
    var probabilities := UniformProbabilities(numObjects');
    row := [];
    // `t` counts the draws of `np.random.choice` so far; the source's `j` is `t - drawn`
    for t := drawn to drawn + size
      invariant |row| == t - drawn && numObjects' == |objects'| == |objects| - (t - drawn)
      invariant |probabilities| == numObjects' && Positive(probabilities)
      invariant numObjects' > 0 ==> Sum(probabilities) == 1.0
      invariant Picks(pool, draws, drawn) + row == Picks(pool, draws, t)
      invariant objects' == Remaining(pool, draws, t) && objectNames' == Keys(objects')
    {
      DrawStep(pool, draws, drawn, t, row, objects', objectNames');
      var selectedIdx := draws[t];
      var selectedObject := objects'[selectedIdx];
      row := row + [selectedObject];
      probabilities := Reweigh(probabilities, objectNames', selectedIdx, factor);
      objectNames' := RemoveAt(objectNames', selectedIdx);
      objects' := RemoveAt(objects', selectedIdx);
      numObjects' := numObjects' - 1;
    }
  }

  /** The groups drawn so far are the picks of the first draws, `objects` and `objectNames` what remains. */
  predicate Drawn(pool: seq<MeshObject>, draws: seq<int>, partitions: seq<seq<MeshObject>>,
                  objects: seq<MeshObject>, objectNames: seq<string>)
  {
    && DrawsFit(draws, |pool|) && |draws| == |pool|
    && |Flatten(partitions)| + |objects| == |pool|
    && Flatten(partitions) == Picks(pool, draws, |Flatten(partitions)|)
    && objects == Remaining(pool, draws, |Flatten(partitions)|)
    && objectNames == Keys(objects)
  }

  lemma DrawnStep(pool: seq<MeshObject>, draws: seq<int>, partitions: seq<seq<MeshObject>>,
                  objects: seq<MeshObject>, objectNames: seq<string>,
                  row: seq<MeshObject>, objects': seq<MeshObject>, objectNames': seq<string>)
    requires Drawn(pool, draws, partitions, objects, objectNames)
    requires |objects'| == |objects| - |row|
    requires var drawn := |Flatten(partitions)|;
      && drawn + |row| <= |pool|
      && Picks(pool, draws, drawn) + row == Picks(pool, draws, drawn + |row|)
      && objects' == Remaining(pool, draws, drawn + |row|) && objectNames' == Keys(objects')
    ensures Drawn(pool, draws, partitions + [row], objects', objectNames')
    ensures |Flatten(partitions + [row])| == |Flatten(partitions)| + |row|
  {
    FlattenAppend(partitions, row);
  }

  /**
   * The outer loop over the `k` partitions, each drawing `size` objects;
   * `numObjects` is the counter `num_objects`.
   */
  method DrawRows(pool: seq<MeshObject>, k: nat, size: nat, factor: real, draws: seq<int>, numObjects: nat)
    returns (partitions: seq<seq<MeshObject>>)
    requires |pool| == k * size && (size > 0 ==> numObjects == |pool|) && numObjects > 0
    requires factor > 0.0
    requires DrawsFit(draws, |pool|) && |draws| == |pool|
    ensures |partitions| == k && (forall i :: 0 <= i < k ==> |partitions[i]| == size)
    ensures Flatten(partitions) == Picks(pool, draws, |draws|)
  {
    var objectNames := Keys(pool);
    var objects := pool;
    var numObjects := numObjects;
    partitions := [];
    ghost var starts := RowStarts(k, size);
    for i := 0 to k
      invariant |partitions| == i && forall g :: 0 <= g < i ==> |partitions[g]| == size
      invariant |Flatten(partitions)| == starts[i]
      invariant size > 0 ==> numObjects == |objects|
      invariant size == 0 ==> numObjects > 0
      invariant Drawn(pool, draws, partitions, objects, objectNames)
    {
      assert starts[i + 1] == starts[i] + size && starts[i + 1] <= starts[k];
      var row: seq<MeshObject>;
      if size == 0 {
        row := [];
        FlattenAppend(partitions, row);
        assert Flatten(partitions + [row]) == Flatten(partitions);
      } else {
        var objects', objectNames';
        row, objects', objectNames', numObjects := DrawPartition(pool, draws, factor, size, |Flatten(partitions)|, objects, objectNames, numObjects);
        DrawnStep(pool, draws, partitions, objects, objectNames, row, objects', objectNames');
        objects, objectNames := objects', objectNames';
      }
      partitions := partitions + [row];
    }
  }

  /**
   * The LESS_PROBABLE_OBJECTS policy. `n` is `len(self.objects)`, `pool` the
   * `n - n % k` objects kept. The weight vector is sized by the counter
   * `num_objects`, which starts at `n`: when `n % k != 0` its length differs
   * from the pool's and the first draw fails with an `IndexError` (at
   * `objects[selected_idx]`, or at the boolean mask). Without any object the
   * first `1 / num_objects` divides by zero.
   */
  method LessProbable(pool: seq<MeshObject>, n: nat, k: int, factor: real, draws: seq<int>)
    returns (r: Result<seq<seq<MeshObject>>>)
    requires k >= 2 && |pool| == n - n % k
    requires factor > 0.0
    requires DrawsFit(draws, n) && |draws| == |pool|
    ensures r.Err? <==> n == 0 || (n % k != 0 && n / k > 0)
    ensures r.Err? ==> r.error == if n == 0 then ZeroDivisionError else IndexError
    ensures r.Ok? ==> |r.value| == k && (forall i :: 0 <= i < k ==> |r.value[i]| == n / k)
    ensures r.Ok? ==> DrawsFit(draws, |pool|) && Flatten(r.value) == Picks(pool, draws, |draws|)
  {
    var numObjects := n;
    var partitionsSize := n / k;
    if numObjects == 0 {
      return Err(ZeroDivisionError);
    }
    if n % k != 0 && partitionsSize > 0 {
      // the first draw: a weight vector of `n` entries against a pool of fewer
      var objectNames := Keys(pool);
      var probabilities := UniformProbabilities(numObjects);
      var selectedIdx := draws[0];
      if selectedIdx >= |pool| {
        return Err(IndexError);
      }
      assert |objectNames| != |probabilities|;
      return Err(IndexError);
    }
    var partitions := DrawRows(pool, k, partitionsSize, factor, draws, numObjects);
    return Ok(partitions);
  }

  // ---------------------------------------------------------------------
  // `ObjectPartition`.

  /** The draws each policy consumes fit what it draws from. */
  predicate DrawsFitPolicy(objects: seq<MeshObject>, k: int, partitionType: PartitionType, swaps: seq<int>,
                           orders: seq<seq<int>>, draws: seq<int>)
  {
    && SwapsFit(swaps, |objects|)
    && (k >= 2 && partitionType == UniqueObjects ==>
          var groups := Split(Pool(objects, swaps, k), k, |objects| / k);
          |orders| == k && forall i :: 0 <= i < k ==> SortsByKey(Keys(groups[i]), orders[i]))
    && (k >= 2 && partitionType == LessProbableObjects ==>
          DrawsFit(draws, |objects|) && |draws| == KeptCount(|objects|, k))
  }

  /** The groups of UNIQUE_OBJECTS, each as written. */
  function UniqueGroups(groups: seq<seq<MeshObject>>, orders: seq<seq<int>>): (r: seq<seq<MeshObject>>)
    requires |orders| == |groups| && forall i :: 0 <= i < |groups| ==> SortsByKey(Keys(groups[i]), orders[i])
    ensures |r| == |groups|
  {
    seq(|groups|, i requires 0 <= i < |groups| => UniqueOf(groups[i], orders[i]))
  }

  class ObjectPartition {
    const numPartitions: int
    const objects: seq<MeshObject>
    /** `_partitions`: the last partitioning stored, `None` before the first. */
    var partitions: Option<seq<seq<MeshObject>>>

    constructor (numPartitions: int, objects: seq<MeshObject>)
      ensures this.numPartitions == numPartitions && this.objects == objects && partitions == None
    {
      this.numPartitions := numPartitions;
      this.objects := objects;
      partitions := None;
    }

    /** `get_partition`. */
    function GetPartition(): Option<seq<seq<MeshObject>>>
      reads this
    {
      partitions
    }

    /**
     * `create_partition`: a shuffled copy of the objects (the list itself is
     * not touched), cut to a multiple of K; K = 0 fails at the modulo, K <= 1
     * returns the flat array without storing it; otherwise the K groups of
     * the policy are stored and returned.
     */
    method CreatePartition(partitionType: PartitionType, probabilityReductionFactor: real,
                           swaps: seq<int>, orders: seq<seq<int>>, draws: seq<int>)
      returns (r: Result<Partitioning>)
      requires DrawsFitPolicy(objects, numPartitions, partitionType, swaps, orders, draws)
      requires partitionType == LessProbableObjects ==> probabilityReductionFactor > 0.0
      modifies this
      ensures numPartitions == 0 ==> r == Err(ZeroDivisionError) && partitions == old(partitions)
      ensures numPartitions != 0 && numPartitions <= 1 ==>
        r == Ok(Flat(Pool(objects, swaps, numPartitions))) && partitions == old(partitions)
      ensures numPartitions >= 2 && partitionType == EqualObjects ==>
        var groups := Split(Pool(objects, swaps, numPartitions), numPartitions, |objects| / numPartitions);
        r == Ok(Groups(groups)) && GetPartition() == Some(groups)
      ensures numPartitions >= 2 && partitionType == UniqueObjects ==>
        var groups := Split(Pool(objects, swaps, numPartitions), numPartitions, |objects| / numPartitions);
        var unique := UniqueGroups(groups, orders);
        r == Ok(Groups(unique)) && GetPartition() == Some(unique)
      ensures numPartitions >= 2 && partitionType == LessProbableObjects ==>
        var pool := Pool(objects, swaps, numPartitions);
        if |objects| == 0 then
          r == Err(ZeroDivisionError) && partitions == old(partitions)
        else if |objects| % numPartitions != 0 && |objects| / numPartitions > 0 then
          r == Err(IndexError) && partitions == old(partitions)
        else
          && r.Ok? && r.value.Groups? && GetPartition() == Some(r.value.groups)
          && |r.value.groups| == numPartitions
          && (forall i :: 0 <= i < numPartitions ==> |r.value.groups[i]| == |objects| / numPartitions)
          && DrawsFit(draws, |pool|) && Flatten(r.value.groups) == Picks(pool, draws, |draws|)
    {
      var numObjects := |objects|;
      var shuffled := new MeshObject[numObjects](i requires 0 <= i < numObjects => objects[i]);
      assert shuffled[..] == objects;
      Shuffle(shuffled, swaps);
      if numPartitions == 0 {
        return Err(ZeroDivisionError);
      }
      var kept := shuffled[..KeptCount(numObjects, numPartitions)];
      if numPartitions <= 1 {
        return Ok(Flat(kept));
      }
      var size := numObjects / numPartitions;
      var groups := Split(kept, numPartitions, size);
      match partitionType {
        case EqualObjects =>
          partitions := Some(groups);
          return Ok(Groups(groups));
        case UniqueObjects =>
          var unique := groups;
          for i := 0 to numPartitions
            invariant |unique| == numPartitions
            invariant forall g :: 0 <= g < i ==> unique[g] == UniqueGroups(groups, orders)[g]
            invariant forall g :: i <= g < numPartitions ==> unique[g] == groups[g]
          {
            var g := UniqueGroup(groups[i], orders[i]);
            unique := unique[i := g];
          }
          assert unique == UniqueGroups(groups, orders);
          partitions := Some(unique);
          return Ok(Groups(unique));
        case LessProbableObjects =>
          var drawn := LessProbable(kept, numObjects, numPartitions, probabilityReductionFactor, draws);
          if drawn.Err? {
            return Err(drawn.error);
          }
          partitions := Some(drawn.value);
          return Ok(Groups(drawn.value));
      }
    }
  }

  /** EQUAL_OBJECTS: K groups of `n div K` objects, whose concatenation is the shuffled, cut pool. */
  lemma EqualGroupsProperties(objects: seq<MeshObject>, swaps: seq<int>, k: int)
    requires SwapsFit(swaps, |objects|) && k >= 2
    ensures var pool := Pool(objects, swaps, k);
      var groups := Split(pool, k, |objects| / k);
      && |groups| == k && (forall i :: 0 <= i < k ==> |groups[i]| == |objects| / k)
      && Flatten(groups) == pool && |objects| - k < |pool| <= |objects|
      && multiset(pool) <= multiset(objects)
  {
    SplitProperties(Pool(objects, swaps, k), k, |objects| / k);
    PoolFromObjects(objects, swaps, k);
  }

  /** LESS_PROBABLE_OBJECTS with `n % K == 0`: the K groups hold every object exactly once. */
  lemma LessProbableIsPermutation(objects: seq<MeshObject>, swaps: seq<int>, k: int, draws: seq<int>, groups: seq<seq<MeshObject>>)
    requires SwapsFit(swaps, |objects|) && k >= 2 && |objects| % k == 0
    requires DrawsFit(draws, |objects|) && |draws| == |objects|
    requires Flatten(groups) == Picks(Pool(objects, swaps, k), draws, |draws|)
    ensures multiset(Flatten(groups)) == multiset(objects)
  {
    PoolFromObjects(objects, swaps, k);
    var pool := Pool(objects, swaps, k);
    ShuffledPermutes(objects, swaps);
    assert pool == Shuffled(objects, swaps);
    PicksPermute(pool, draws);
  }

  /** Every UNIQUE_OBJECTS group is at most `n div K` long. */
  lemma UniqueGroupsShorter(groups: seq<seq<MeshObject>>, orders: seq<seq<int>>, size: nat)
    requires |orders| == |groups| && forall i :: 0 <= i < |groups| ==> SortsByKey(Keys(groups[i]), orders[i])
    requires forall i :: 0 <= i < |groups| ==> |groups[i]| == size
    ensures forall i :: 0 <= i < |groups| ==> |UniqueGroups(groups, orders)[i]| <= size
  {
    forall i | 0 <= i < |groups|
      ensures |UniqueGroups(groups, orders)[i]| <= size
    {
      UniqueAsWrittenShorter(groups[i], Permute(groups[i], orders[i]), Runs(Permute(Keys(groups[i]), orders[i])));
      assert UniqueGroups(groups, orders)[i] == UniqueOf(groups[i], orders[i]);
    }
  }
}
