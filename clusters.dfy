/** FindLineClusters (engine.c:387-483): the naked-subset search over the nine
    cells of one row, column or square, for subset sizes 1 to 3. */
module ClusterSearch {
  import opened Options
  import opened Cell
  import opened Combinations

  /** struct LineCluster (engine.h:34-38): `size` cells at `positions` of the line
      whose candidates together are `bitset`. */
  datatype LineCluster = LineCluster(size: int, bitset: Bits, positions: seq<int>)

  /** Every entry is a position of a nine-cell line. */
  predicate InLine(positions: seq<int>)
  {
    forall i :: 0 <= i < |positions| ==> 0 <= positions[i] < 9
  }

  /** OR of the candidate sets at `positions`, accumulated left to right as at engine.c:427-430. */
  function UnionAt(cells: seq<Bits>, positions: seq<int>): Bits
    requires |cells| == 9 && InLine(positions)
  {
    if positions == [] then 0
    else UnionAt(cells, positions[..|positions| - 1]) | cells[positions[|positions| - 1]]
  }

  /** What FindLineClusters promises of every cluster it returns: 1 to 3 strictly
      increasing positions of the line whose candidates together number exactly `size`. */
  predicate ValidCluster(cells: seq<Bits>, x: LineCluster)
    requires |cells| == 9
  {
    && 1 <= x.size <= 3
    && |x.positions| == x.size
    && InLine(x.positions)
    && Increasing(x.positions)
    && x.bitset == UnionAt(cells, x.positions)
    && Pop(x.bitset) == x.size
  }

  // ---------------------------------------------------------------------
  // The claimed-position bookkeeping: is_in_cluster and num_in_cluster

  /** Number of claimed positions. */
  function CountTrue(s: seq<bool>): nat
  {
    if s == [] then 0 else CountTrue(s[..|s| - 1]) + (if s[|s| - 1] then 1 else 0)
  }

  /** Reference definition of apparent_to_real_index: the unclaimed positions in increasing order. */
  function Unclaimed(claimed: seq<bool>): seq<int>
  {
    if claimed == [] then []
    else Unclaimed(claimed[..|claimed| - 1]) + (if claimed[|claimed| - 1] then [] else [|claimed| - 1])
  }

  /** The positions of a line that an apparent-index combination stands for (engine.c:435). */
  function RealPositions(apparent: seq<int>, c: seq<int>): (r: seq<int>)
    requires forall i :: 0 <= i < |c| ==> 0 <= c[i] < |apparent|
    ensures |r| == |c| && forall i :: 0 <= i < |c| ==> r[i] == apparent[c[i]]
  {
    if c == [] then [] else RealPositions(apparent, c[..|c| - 1]) + [apparent[c[|c| - 1]]]
  }

  /** Marks `positions` as claimed one after the other (engine.c:434-440). */
  function ClaimPositions(claimed: seq<bool>, positions: seq<int>): (r: seq<bool>)
    requires forall i :: 0 <= i < |positions| ==> 0 <= positions[i] < |claimed|
    ensures |r| == |claimed|
  {
    if positions == [] then claimed
    else ClaimPositions(claimed, positions[..|positions| - 1])[positions[|positions| - 1] := true]
  }

  predicate AllInLine(found: seq<LineCluster>)
  {
    forall j :: 0 <= j < |found| ==> InLine(found[j].positions)
  }

  /** Number of positions held by the clusters of `found`: what num_in_cluster adds
      for them, one per position (engine.c:438). */
  function Weight(found: seq<LineCluster>): nat
  {
    if found == [] then 0 else Weight(found[..|found| - 1]) + |found[|found| - 1].positions|
  }

  /** Marks the positions of every cluster in `found`, in order. */
  function ClaimClusters(claimed: seq<bool>, found: seq<LineCluster>): (r: seq<bool>)
    requires |claimed| == 9 && AllInLine(found)
    ensures |r| == 9
  {
    if found == [] then claimed
    else ClaimPositions(ClaimClusters(claimed, found[..|found| - 1]), found[|found| - 1].positions)
  }

  /** Some cluster of `found` holds position `p`. */
  predicate Covered(found: seq<LineCluster>, p: int)
  {
    exists j :: 0 <= j < |found| && p in found[j].positions
  }

  // ---------------------------------------------------------------------
  // One cluster size: the scan over every combination of apparent indices

  /** The cluster a combination of apparent indices forms, when its candidates number k. */
  function ClusterOf(cells: seq<Bits>, apparent: seq<int>, k: int, c: seq<int>): LineCluster
    requires |cells| == 9 && InLine(apparent) && forall i :: 0 <= i < |c| ==> 0 <= c[i] < |apparent|
  {
    var positions := RealPositions(apparent, c);
    LineCluster(k, UnionAt(cells, positions), positions)
  }

  /** The clusters of size k found while visiting `combos` in order (engine.c:426-448). */
  function SizeScan(cells: seq<Bits>, apparent: seq<int>, k: int, combos: seq<seq<int>>): seq<LineCluster>
    requires |cells| == 9 && InLine(apparent) && Indexes(combos, |apparent|)
  {
    if combos == [] then []
    else
      var found := SizeScan(cells, apparent, k, combos[..|combos| - 1]);
      var x := ClusterOf(cells, apparent, k, combos[|combos| - 1]);
      if Pop(x.bitset) == k then found + [x] else found
  }

  /** Every entry of every tuple of `combos` indexes a sequence of length m. */
  predicate Indexes(combos: seq<seq<int>>, m: int)
  {
    forall t, i :: 0 <= t < |combos| && 0 <= i < |combos[t]| ==> 0 <= combos[t][i] < m
  }

  /** The clusters of size k formed by the positions `chosen` followed by the
      positions of each tuple of `combos`, in the order of `combos`. */
  function Extend(cells: seq<Bits>, apparent: seq<int>, k: int, chosen: seq<int>, combos: seq<seq<int>>): seq<LineCluster>
    requires |cells| == 9 && InLine(apparent) && InLine(chosen) && Indexes(combos, |apparent|)
  {
    if combos == [] then []
    else
      var found := Extend(cells, apparent, k, chosen, combos[..|combos| - 1]);
      var positions := chosen + RealPositions(apparent, combos[|combos| - 1]);
      if Pop(UnionAt(cells, positions)) == k then found + [LineCluster(k, UnionAt(cells, positions), positions)]
      else found
  }

  /** Reference definition of the search for one size, as a walk over choices: the
      clusters of size k among the ways to complete the positions `chosen` with
      k - |chosen| more of the apparent indices lo .. n-1, taking each index before
      skipping it. That is the lexicographic order in which the index array of
      engine.c:420-477 steps through the combinations. */
  function Search(cells: seq<Bits>, apparent: seq<int>, n: int, k: int, chosen: seq<int>, lo: nat): seq<LineCluster>
    requires |cells| == 9 && InLine(apparent) && n <= |apparent| && InLine(chosen) && |chosen| <= k
    decreases n - lo
  {
    if |chosen| == k then
      var x := LineCluster(k, UnionAt(cells, chosen), chosen);
      if Pop(x.bitset) == k then [x] else []
    else if lo >= n then []
    else
      Search(cells, apparent, n, k, chosen + [apparent[lo]], lo + 1) + Search(cells, apparent, n, k, chosen, lo + 1)
  }

  /** Reference definition of FindLineClusters from size k on, given the claimed
      positions and the counter num_in_cluster (which counts a position once per claim).
      Size k is skipped, and so is every larger size, once k >= 9 - num (engine.c:403);
      sizes stop at 3 (engine.c:399). */
  function FindFrom(cells: seq<Bits>, k: int, claimed: seq<bool>, num: int): seq<LineCluster>
    requires |cells| == 9 && |claimed| == 9 && 1 <= k && CountTrue(claimed) <= num
    decreases 4 - k, 1
  {
    if k > 3 || k >= 9 - num then []
    else
      var found := SizeFound(cells, k, claimed, num);
      FindAfter(cells, k, found, ClaimClusters(claimed, found), num + Weight(found))
  }

  /** The clusters `found` of size k, then those of the larger sizes from the state
      `claimed`, `num` reached after claiming and counting their positions (engine.c:438). */
  function FindAfter(cells: seq<Bits>, k: int, found: seq<LineCluster>, claimed: seq<bool>, num: int): seq<LineCluster>
    requires |cells| == 9 && |claimed| == 9 && 1 <= k <= 3 && CountTrue(claimed) <= num
    decreases 4 - k, 0
  {
    found + FindFrom(cells, k + 1, claimed, num)
  }

  /** The clusters of size k, when that size is searched: the scan over every
      k-combination of the 9 - num apparent indices. */
  function SizeFound(cells: seq<Bits>, k: int, claimed: seq<bool>, num: int): (found: seq<LineCluster>)
    requires |cells| == 9 && |claimed| == 9 && 1 <= k <= 3 && k < 9 - num && CountTrue(claimed) <= num
    ensures AllInLine(found)
    ensures CountTrue(ClaimClusters(claimed, found)) <= num + Weight(found)
  {
    UnclaimedWalk(claimed, 9 - num);
    var found := Search(cells, Unclaimed(claimed), 9 - num, k, [], 0);
    SearchValid(cells, Unclaimed(claimed), 9 - num, k, [], 0);
    ClaimClustersCount(claimed, found);
    found
  }

  /** The cluster groups FindLineClusters returns for a line. */
  function Clusters(cells: seq<Bits>): seq<LineCluster>
    requires |cells| == 9
  {
    FindFrom(cells, 1, NoClaims(), 0)
  }

  /** is_in_cluster after SetBooleanArray(is_in_cluster, kMaxNumber, false) (engine.c:392-393). */
  function NoClaims(): (r: seq<bool>)
    ensures |r| == 9 && CountTrue(r) == 0 && forall p :: 0 <= p < 9 ==> !r[p]
  {
    var r := seq(9, _ => false);
    CountTrueNone(r);
    r
  }

  // ---------------------------------------------------------------------
  // Lemmas: bookkeeping

  lemma {:induction false} CountTrueNone(s: seq<bool>)
    requires forall p :: 0 <= p < |s| ==> !s[p]
    ensures CountTrue(s) == 0
  {
    if s != [] {
      CountTrueNone(s[..|s| - 1]);
    }
  }

  /** Claiming a position adds one to the count exactly when it was unclaimed. */
  lemma {:induction false} CountTrueSet(s: seq<bool>, p: int)
    requires 0 <= p < |s|
    ensures CountTrue(s[p := true]) == CountTrue(s) + (if s[p] then 0 else 1)
  {
    var last := |s| - 1;
    assert s[p := true][..last] == if p < last then s[..last][p := true] else s[..last];
    if p < last {
      CountTrueSet(s[..last], p);
    }
  }

  /** Unclaimed lists exactly the unclaimed positions, in increasing order. */
  lemma UnclaimedSpec(claimed: seq<bool>)
    ensures Increasing(Unclaimed(claimed))
    ensures forall i :: 0 <= i < |Unclaimed(claimed)| ==>
      0 <= Unclaimed(claimed)[i] < |claimed| && !claimed[Unclaimed(claimed)[i]]
    ensures forall p :: 0 <= p < |claimed| && !claimed[p] ==> p in Unclaimed(claimed)
    ensures |Unclaimed(claimed)| == |claimed| - CountTrue(claimed)
  {
    UnclaimedEntries(claimed);
    UnclaimedIncreasing(claimed);
    UnclaimedComplete(claimed);
    UnclaimedLength(claimed);
  }

  lemma {:induction false} UnclaimedEntries(claimed: seq<bool>)
    ensures forall i :: 0 <= i < |Unclaimed(claimed)| ==>
      0 <= Unclaimed(claimed)[i] < |claimed| && !claimed[Unclaimed(claimed)[i]]
  {
    if claimed != [] {
      var m := |claimed| - 1;
      var init := claimed[..m];
      UnclaimedEntries(init);
      var u := Unclaimed(init);
      forall i | 0 <= i < |Unclaimed(claimed)|
        ensures 0 <= Unclaimed(claimed)[i] < |claimed| && !claimed[Unclaimed(claimed)[i]]
      {
        if i < |u| {
          assert Unclaimed(claimed)[i] == u[i];
          assert init[u[i]] == claimed[u[i]];
        }
      }
    }
  }

  lemma {:induction false} UnclaimedIncreasing(claimed: seq<bool>)
    ensures Increasing(Unclaimed(claimed))
  {
    if claimed != [] {
      var m := |claimed| - 1;
      var init := claimed[..m];
      UnclaimedIncreasing(init);
      UnclaimedEntries(init);
      var u := Unclaimed(init);
      var r := Unclaimed(claimed);
      forall i, j | 0 <= i < j < |r|
        ensures r[i] < r[j]
      {
        assert r[i] == u[i];
        if j < |u| {
          assert r[j] == u[j];
        }
      }
    }
  }

  lemma {:induction false} UnclaimedComplete(claimed: seq<bool>)
    ensures forall p :: 0 <= p < |claimed| && !claimed[p] ==> p in Unclaimed(claimed)
  {
    if claimed != [] {
      var m := |claimed| - 1;
      var init := claimed[..m];
      UnclaimedComplete(init);
      var u := Unclaimed(init);
      var r := Unclaimed(claimed);
      assert r == u + (if claimed[m] then [] else [m]);
      forall p | 0 <= p < |claimed| && !claimed[p]
        ensures p in r
      {
        if p < m {
          assert init[p] == claimed[p];
          var i :| 0 <= i < |u| && u[i] == p;
          assert r[i] == p;
        } else {
          assert r[|u|] == m;
        }
      }
    }
  }

  lemma {:induction false} UnclaimedLength(claimed: seq<bool>)
    ensures |Unclaimed(claimed)| == |claimed| - CountTrue(claimed)
  {
    if claimed != [] {
      UnclaimedLength(claimed[..|claimed| - 1]);
    }
  }

  lemma {:induction false} ClaimPositionsAt(claimed: seq<bool>, positions: seq<int>, p: int)
    requires forall i :: 0 <= i < |positions| ==> 0 <= positions[i] < |claimed|
    requires 0 <= p < |claimed|
    ensures ClaimPositions(claimed, positions)[p] == (claimed[p] || p in positions)
  {
    if positions != [] {
      var init := positions[..|positions| - 1];
      ClaimPositionsAt(claimed, init, p);
      assert positions == init + [positions[|positions| - 1]];
    }
  }

  lemma {:induction false} ClaimPositionsCount(claimed: seq<bool>, positions: seq<int>)
    requires forall i :: 0 <= i < |positions| ==> 0 <= positions[i] < |claimed|
    ensures CountTrue(ClaimPositions(claimed, positions)) <= CountTrue(claimed) + |positions|
  {
    if positions != [] {
      var init := positions[..|positions| - 1];
      ClaimPositionsCount(claimed, init);
      CountTrueSet(ClaimPositions(claimed, init), positions[|positions| - 1]);
    }
  }

  /** num_in_cluster never falls below the number of claimed positions. */
  lemma {:induction false} ClaimClustersCount(claimed: seq<bool>, found: seq<LineCluster>)
    requires |claimed| == 9 && AllInLine(found)
    ensures CountTrue(ClaimClusters(claimed, found)) <= CountTrue(claimed) + Weight(found)
  {
    if found != [] {
      var init := found[..|found| - 1];
      assert AllInLine(init);
      ClaimClustersCount(claimed, init);
      var before := ClaimClusters(claimed, init);
      var last := found[|found| - 1].positions;
      ClaimPositionsCount(before, last);
      assert ClaimClusters(claimed, found) == ClaimPositions(before, last);
    }
  }

  /** After claiming, a position is claimed exactly when it was before or some cluster holds it. */
  lemma {:induction false} ClaimClustersAt(claimed: seq<bool>, found: seq<LineCluster>, p: int)
    requires |claimed| == 9 && AllInLine(found) && 0 <= p < 9
    ensures ClaimClusters(claimed, found)[p] == (claimed[p] || Covered(found, p))
  {
    if found != [] {
      var init := found[..|found| - 1];
      ClaimClustersAt(claimed, init, p);
      ClaimPositionsAt(ClaimClusters(claimed, init), found[|found| - 1].positions, p);
      if Covered(init, p) {
        var j :| 0 <= j < |init| && p in init[j].positions;
        assert found[j] == init[j];
      }
      if Covered(found, p) && !(p in found[|found| - 1].positions) {
        var j :| 0 <= j < |found| && p in found[j].positions;
        assert init[j] == found[j];
      }
    }
  }

  lemma ClaimClustersMonotone(claimed: seq<bool>, found: seq<LineCluster>)
    requires |claimed| == 9 && AllInLine(found)
    ensures Grows(claimed, ClaimClusters(claimed, found))
  {
    forall p | 0 <= p < 9 && claimed[p]
      ensures ClaimClusters(claimed, found)[p]
    {
      ClaimClustersAt(claimed, found, p);
    }
  }

  // ---------------------------------------------------------------------
  // Lemmas: unions and the per-size scan

  /** Every member's candidates are part of the union. */
  lemma {:induction false} UnionAtMember(cells: seq<Bits>, positions: seq<int>, i: int)
    requires |cells| == 9 && InLine(positions) && 0 <= i < |positions|
    ensures cells[positions[i]] & UnionAt(cells, positions) == cells[positions[i]]
  {
    var init := positions[..|positions| - 1];
    if i < |init| {
      UnionAtMember(cells, init, i);
      assert positions[i] == init[i];
    }
  }

  /** One more combination visited: the scan grows by its cluster exactly when the
      candidates of that combination number k. */
  lemma SizeScanSnoc(cells: seq<Bits>, apparent: seq<int>, k: int, combos: seq<seq<int>>, t: int)
    requires |cells| == 9 && InLine(apparent) && Indexes(combos, |apparent|) && 0 <= t < |combos|
    ensures Indexes(combos[..t + 1], |apparent|)
    ensures SizeScan(cells, apparent, k, combos[..t + 1]) ==
      SizeScan(cells, apparent, k, combos[..t]) +
      (if Pop(ClusterOf(cells, apparent, k, combos[t]).bitset) == k then [ClusterOf(cells, apparent, k, combos[t])] else [])
  {
    assert combos[..t + 1][..t] == combos[..t];
  }

  /** Claiming one more cluster claims its positions and counts them. */
  lemma ClaimClustersSnoc(claimed: seq<bool>, found: seq<LineCluster>, x: LineCluster)
    requires |claimed| == 9 && AllInLine(found) && InLine(x.positions)
    ensures AllInLine(found + [x])
    ensures ClaimClusters(claimed, found + [x]) == ClaimPositions(ClaimClusters(claimed, found), x.positions)
    ensures Weight(found + [x]) == Weight(found) + |x.positions|
  {
    assert (found + [x])[..|found|] == found;
  }

  /** Extend distributes over concatenation. */
  lemma {:induction false} ExtendAppend(cells: seq<Bits>, apparent: seq<int>, k: int, chosen: seq<int>,
                                        a: seq<seq<int>>, b: seq<seq<int>>)
    requires |cells| == 9 && InLine(apparent) && InLine(chosen)
    requires Indexes(a, |apparent|) && Indexes(b, |apparent|)
    ensures Indexes(a + b, |apparent|)
    ensures Extend(cells, apparent, k, chosen, a + b) ==
      Extend(cells, apparent, k, chosen, a) + Extend(cells, apparent, k, chosen, b)
    decreases |b|
  {
    if b == [] {
      assert a + b == a;
    } else {
      var init := b[..|b| - 1];
      assert (a + b)[..|a + b| - 1] == a + init;
      ExtendAppend(cells, apparent, k, chosen, a, init);
    }
  }

  /** Taking apparent index lo first moves its position into the chosen prefix. */
  lemma {:induction false} ExtendPrepend(cells: seq<Bits>, apparent: seq<int>, k: int, chosen: seq<int>,
                                         lo: int, tails: seq<seq<int>>)
    requires |cells| == 9 && InLine(apparent) && InLine(chosen) && 0 <= lo < |apparent|
    requires Indexes(tails, |apparent|)
    ensures Indexes(Prepend(lo, tails), |apparent|) && InLine(chosen + [apparent[lo]])
    ensures Extend(cells, apparent, k, chosen, Prepend(lo, tails)) ==
      Extend(cells, apparent, k, chosen + [apparent[lo]], tails)
    decreases |tails|
  {
    PrependIndexes(apparent, lo, tails);
    if tails != [] {
      var m := |tails| - 1;
      PrependInit(lo, tails);
      ExtendPrepend(cells, apparent, k, chosen, lo, tails[..m]);
      ChosenThen(apparent, chosen, lo, tails[m]);
    }
  }

  /** Prepend splits like its argument: the earlier tails, then the last one. */
  lemma PrependInit(lo: int, tails: seq<seq<int>>)
    requires tails != []
    ensures Prepend(lo, tails)[..|tails| - 1] == Prepend(lo, tails[..|tails| - 1])
    ensures Prepend(lo, tails)[|tails| - 1] == [lo] + tails[|tails| - 1]
  {
  }

  /** Prepending an index in range keeps every tail's indices in range. */
  lemma PrependIndexes(apparent: seq<int>, lo: int, tails: seq<seq<int>>)
    requires InLine(apparent) && 0 <= lo < |apparent| && Indexes(tails, |apparent|)
    ensures Indexes(Prepend(lo, tails), |apparent|)
  {
  }

  /** The positions of apparent index lo followed by those of `c`. */
  lemma ChosenThen(apparent: seq<int>, chosen: seq<int>, lo: int, c: seq<int>)
    requires 0 <= lo < |apparent| && forall i :: 0 <= i < |c| ==> 0 <= c[i] < |apparent|
    ensures chosen + RealPositions(apparent, [lo] + c) == chosen + [apparent[lo]] + RealPositions(apparent, c)
  {
    assert RealPositions(apparent, [lo] + c) == [apparent[lo]] + RealPositions(apparent, c);
  }

  /** The reference list over [lo, n) only holds indices of a sequence of length m >= n. */
  lemma CombsIndexes(j: nat, lo: nat, n: int, m: int)
    requires n <= m
    ensures Indexes(Combs(j, lo, n), m)
  {
    CombsValid(j, lo, n);
  }

  /** With every position chosen, the walk and the reference list agree. */
  lemma ExtendDone(cells: seq<Bits>, apparent: seq<int>, n: int, k: int, chosen: seq<int>, lo: nat)
    requires |cells| == 9 && InLine(apparent) && n <= |apparent| && InLine(chosen) && |chosen| == k
    ensures Indexes(Combs(0, lo, n), |apparent|)
    ensures Search(cells, apparent, n, k, chosen, lo) == Extend(cells, apparent, k, chosen, Combs(0, lo, n))
  {
    var one: seq<seq<int>> := [[]];
    assert Combs(0, lo, n) == one && one[..0] == [];
    assert chosen + RealPositions(apparent, []) == chosen;
  }

  /** One step of SearchExtend: taking index lo, then skipping it. */
  lemma SearchExtendStep(cells: seq<Bits>, apparent: seq<int>, n: int, k: int, chosen: seq<int>, lo: nat, j: nat)
    requires |cells| == 9 && InLine(apparent) && n <= |apparent| && InLine(chosen) && |chosen| + j == k && 0 < j && lo < n
    requires Indexes(Combs(j - 1, lo + 1, n), |apparent|) && Indexes(Combs(j, lo + 1, n), |apparent|)
    requires InLine(chosen + [apparent[lo]])
    requires Search(cells, apparent, n, k, chosen + [apparent[lo]], lo + 1) ==
      Extend(cells, apparent, k, chosen + [apparent[lo]], Combs(j - 1, lo + 1, n))
    requires Search(cells, apparent, n, k, chosen, lo + 1) == Extend(cells, apparent, k, chosen, Combs(j, lo + 1, n))
    ensures Indexes(Combs(j, lo, n), |apparent|)
    ensures Search(cells, apparent, n, k, chosen, lo) == Extend(cells, apparent, k, chosen, Combs(j, lo, n))
  {
    var tails := Combs(j - 1, lo + 1, n);
    var rest := Combs(j, lo + 1, n);
    ExtendPrepend(cells, apparent, k, chosen, lo, tails);
    ExtendAppend(cells, apparent, k, chosen, Prepend(lo, tails), rest);
    assert Combs(j, lo, n) == Prepend(lo, tails) + rest;
  }

  /** The walk over choices lists the clusters of the reference list of combinations, in its order. */
  lemma {:induction false} SearchExtend(cells: seq<Bits>, apparent: seq<int>, n: int, k: int, chosen: seq<int>, lo: nat, j: nat)
    requires |cells| == 9 && InLine(apparent) && n <= |apparent| && InLine(chosen) && |chosen| + j == k
    ensures Indexes(Combs(j, lo, n), |apparent|)
    ensures Search(cells, apparent, n, k, chosen, lo) == Extend(cells, apparent, k, chosen, Combs(j, lo, n))
    decreases n - lo, 1
  {
    if j == 0 {
      ExtendDone(cells, apparent, n, k, chosen, lo);
    } else if lo < n {
      SearchExtendTake(cells, apparent, n, k, chosen, lo, j);
    } else {
      ExtendPast(cells, apparent, n, k, chosen, lo, j);
    }
  }

  /** SearchExtend when index lo is still to be decided: by the walk with lo taken and
      the walk with lo skipped. */
  lemma {:induction false} SearchExtendTake(cells: seq<Bits>, apparent: seq<int>, n: int, k: int, chosen: seq<int>, lo: nat, j: nat)
    requires |cells| == 9 && InLine(apparent) && n <= |apparent| && InLine(chosen) && |chosen| + j == k
    requires 0 < j && lo < n
    ensures Indexes(Combs(j, lo, n), |apparent|)
    ensures Search(cells, apparent, n, k, chosen, lo) == Extend(cells, apparent, k, chosen, Combs(j, lo, n))
    decreases n - lo, 0
  {
    var taken := chosen + [apparent[lo]];
    SearchExtend(cells, apparent, n, k, taken, lo + 1, j - 1);
    SearchExtend(cells, apparent, n, k, chosen, lo + 1, j);
    SearchExtendStep(cells, apparent, n, k, chosen, lo, j);
  }

  /** Past the last index with positions still to choose, both lists are empty. */
  lemma ExtendPast(cells: seq<Bits>, apparent: seq<int>, n: int, k: int, chosen: seq<int>, lo: nat, j: nat)
    requires |cells| == 9 && InLine(apparent) && n <= |apparent| && InLine(chosen) && |chosen| + j == k
    requires 0 < j && n <= lo
    ensures Indexes(Combs(j, lo, n), |apparent|)
    ensures Search(cells, apparent, n, k, chosen, lo) == Extend(cells, apparent, k, chosen, Combs(j, lo, n))
  {
    assert Combs(j, lo, n) == [];
  }

  /** With nothing chosen, Extend is the scan over the combinations. */
  lemma {:induction false} ExtendEmpty(cells: seq<Bits>, apparent: seq<int>, k: int, combos: seq<seq<int>>)
    requires |cells| == 9 && InLine(apparent) && Indexes(combos, |apparent|)
    ensures Extend(cells, apparent, k, [], combos) == SizeScan(cells, apparent, k, combos)
  {
    if combos != [] {
      ExtendEmpty(cells, apparent, k, combos[..|combos| - 1]);
      assert [] + RealPositions(apparent, combos[|combos| - 1]) == RealPositions(apparent, combos[|combos| - 1]);
    }
  }

  /** The walk over choices and the scan of the visited combinations find the same
      clusters in the same order. */
  lemma SearchScan(cells: seq<Bits>, apparent: seq<int>, n: int, k: nat)
    requires |cells| == 9 && InLine(apparent) && 0 <= n <= |apparent|
    ensures InLine(apparent) && Indexes(Combs(k, 0, n), |apparent|)
    ensures Search(cells, apparent, n, k, [], 0) == SizeScan(cells, apparent, k, Combs(k, 0, n))
  {
    CombsIndexes(k, 0, n, |apparent|);
    SearchExtend(cells, apparent, n, k, [], 0, k);
    ExtendEmpty(cells, apparent, k, Combs(k, 0, n));
  }

  /** SizeFound is the scan of the combinations the search visits. */
  lemma SizeFoundScan(cells: seq<Bits>, k: int, claimed: seq<bool>, num: int)
    requires |cells| == 9 && |claimed| == 9 && 1 <= k <= 3 && k < 9 - num && CountTrue(claimed) <= num
    ensures InLine(Unclaimed(claimed)) && Indexes(Combs(k, 0, 9 - num), |Unclaimed(claimed)|)
    ensures SizeFound(cells, k, claimed, num) == SizeScan(cells, Unclaimed(claimed), k, Combs(k, 0, 9 - num))
  {
    UnclaimedWalk(claimed, 9 - num);
    SearchScan(cells, Unclaimed(claimed), 9 - num, k);
  }

  /** SizeFound is the scan of the combinations the generator visits. */
  lemma SizeFoundPlan(cells: seq<Bits>, k: int, claimed: seq<bool>, num: int, apparent: seq<int>)
    returns (combos: seq<seq<int>>)
    requires |cells| == 9 && |claimed| == 9 && 1 <= k <= 3 && k < 9 - num && CountTrue(claimed) <= num
    requires apparent == Unclaimed(claimed)
    ensures Enumerates(combos, k, 9 - num)
    ensures InLine(apparent) && Indexes(combos, |apparent|)
    ensures SizeFound(cells, k, claimed, num) == SizeScan(cells, apparent, k, combos)
  {
    SizeFoundScan(cells, k, claimed, num);
    CombsEnumerate(k, 9 - num);
    combos := Combs(k, 0, 9 - num);
  }

  /** A state of the walk: `apparent` lists positions of the line in increasing order,
      and `chosen` holds increasing positions taken from it, all below apparent[lo..]. */
  predicate Walk(apparent: seq<int>, n: int, chosen: seq<int>, lo: int)
  {
    && InLine(apparent) && Increasing(apparent) && n <= |apparent|
    && InLine(chosen) && Increasing(chosen)
    && (forall p :: p in chosen ==> p in apparent)
    && (forall p, i :: p in chosen && 0 <= lo <= i < |apparent| ==> p < apparent[i])
  }

  /** Soundness of the walk: each cluster it lists is valid, of size k, and lies on apparent positions. */
  lemma {:induction false} SearchValid(cells: seq<Bits>, apparent: seq<int>, n: int, k: int, chosen: seq<int>, lo: nat)
    requires |cells| == 9 && 1 <= k <= 3 && |chosen| <= k && Walk(apparent, n, chosen, lo)
    ensures forall x :: x in Search(cells, apparent, n, k, chosen, lo) ==>
      ValidCluster(cells, x) && x.size == k && forall p :: p in x.positions ==> p in apparent
    decreases n - lo, 1
  {
    if |chosen| < k && lo < n {
      SearchValidTake(cells, apparent, n, k, chosen, lo);
    }
  }

  /** SearchValid while index lo is still to be decided: the walks that take and skip it are sound. */
  lemma {:induction false} SearchValidTake(cells: seq<Bits>, apparent: seq<int>, n: int, k: int, chosen: seq<int>, lo: nat)
    requires |cells| == 9 && 1 <= k <= 3 && |chosen| < k && Walk(apparent, n, chosen, lo) && lo < n
    ensures forall x :: x in Search(cells, apparent, n, k, chosen, lo) ==>
      ValidCluster(cells, x) && x.size == k && forall p :: p in x.positions ==> p in apparent
    decreases n - lo, 0
  {
    WalkTake(apparent, n, chosen, lo);
    SearchValid(cells, apparent, n, k, chosen + [apparent[lo]], lo + 1);
    SearchValid(cells, apparent, n, k, chosen, lo + 1);
  }

  /** Taking apparent[lo] keeps the walk going. */
  lemma WalkTake(apparent: seq<int>, n: int, chosen: seq<int>, lo: nat)
    requires Walk(apparent, n, chosen, lo) && lo < n
    ensures Walk(apparent, n, chosen + [apparent[lo]], lo + 1)
  {
    var taken := chosen + [apparent[lo]];
    forall i, j | 0 <= i < j < |taken|
      ensures taken[i] < taken[j]
    {
      if j < |chosen| {
        assert chosen[i] < chosen[j];
      } else {
        assert chosen[i] in chosen;
      }
    }
    forall p, i | p in taken && lo + 1 <= i < |apparent|
      ensures p < apparent[i]
    {
      if p !in chosen {
        assert apparent[lo] < apparent[i];
      }
    }
  }

  /** The positions still to choose, from index lo of the walk on. */
  predicate Completes(apparent: seq<int>, n: int, chosen: seq<int>, lo: int, positions: seq<int>)
    requires 0 <= lo <= n <= |apparent| && |chosen| <= |positions|
  {
    positions[..|chosen|] == chosen && forall i :: |chosen| <= i < |positions| ==> positions[i] in apparent[lo..n]
  }

  /** Completeness of the walk: every increasing k positions that extend `chosen` with
      positions among apparent[lo..n], and whose candidates number exactly k, are listed. */
  lemma {:induction false} SearchComplete(cells: seq<Bits>, apparent: seq<int>, n: int, k: int, chosen: seq<int>, lo: nat,
                                          positions: seq<int>)
    requires |cells| == 9 && |chosen| <= k && Walk(apparent, n, chosen, lo) && lo <= n
    requires |positions| == k && InLine(positions) && Increasing(positions)
    requires Completes(apparent, n, chosen, lo, positions)
    requires Pop(UnionAt(cells, positions)) == k
    ensures LineCluster(k, UnionAt(cells, positions), positions) in Search(cells, apparent, n, k, chosen, lo)
    decreases n - lo, 1
  {
    if |chosen| == k {
      assert positions == positions[..|chosen|];
    } else {
      assert positions[|chosen|] in apparent[lo..n];
      if positions[|chosen|] == apparent[lo] {
        SearchCompleteTake(cells, apparent, n, k, chosen, lo, positions);
      } else {
        SearchCompleteSkip(cells, apparent, n, k, chosen, lo, positions);
      }
    }
  }

  /** SearchComplete when the next position is apparent[lo]: found by the walk that takes it. */
  lemma {:induction false} SearchCompleteTake(cells: seq<Bits>, apparent: seq<int>, n: int, k: int, chosen: seq<int>,
                                              lo: nat, positions: seq<int>)
    requires |cells| == 9 && |chosen| < k && Walk(apparent, n, chosen, lo) && lo < n
    requires |positions| == k && InLine(positions) && Increasing(positions)
    requires Completes(apparent, n, chosen, lo, positions) && positions[|chosen|] == apparent[lo]
    requires Pop(UnionAt(cells, positions)) == k
    ensures LineCluster(k, UnionAt(cells, positions), positions) in Search(cells, apparent, n, k, chosen, lo)
    decreases n - lo, 0
  {
    var taken := chosen + [apparent[lo]];
    TakeReady(apparent, n, chosen, lo, positions);
    SearchComplete(cells, apparent, n, k, taken, lo + 1, positions);
  }

  /** SearchComplete when the next position lies after apparent[lo]: found by the walk that skips it. */
  lemma {:induction false} SearchCompleteSkip(cells: seq<Bits>, apparent: seq<int>, n: int, k: int, chosen: seq<int>,
                                              lo: nat, positions: seq<int>)
    requires |cells| == 9 && |chosen| < k && Walk(apparent, n, chosen, lo) && lo < n
    requires |positions| == k && InLine(positions) && Increasing(positions)
    requires Completes(apparent, n, chosen, lo, positions) && positions[|chosen|] != apparent[lo]
    requires Pop(UnionAt(cells, positions)) == k
    ensures LineCluster(k, UnionAt(cells, positions), positions) in Search(cells, apparent, n, k, chosen, lo)
    decreases n - lo, 0
  {
    SkipReady(apparent, n, chosen, lo, positions);
    SearchComplete(cells, apparent, n, k, chosen, lo + 1, positions);
  }

  /** Taking apparent[lo] when it is the next position keeps the walk going. */
  lemma TakeReady(apparent: seq<int>, n: int, chosen: seq<int>, lo: nat, positions: seq<int>)
    requires Walk(apparent, n, chosen, lo) && lo < n && |chosen| < |positions|
    requires InLine(positions) && Increasing(positions)
    requires Completes(apparent, n, chosen, lo, positions) && positions[|chosen|] == apparent[lo]
    ensures Walk(apparent, n, chosen + [apparent[lo]], lo + 1)
    ensures Completes(apparent, n, chosen + [apparent[lo]], lo + 1, positions)
  {
    var taken := chosen + [apparent[lo]];
    assert positions[..|taken|] == taken;
    WalkTake(apparent, n, chosen, lo);
    forall i | |taken| <= i < |positions|
      ensures positions[i] in apparent[lo + 1..n]
    {
      var a :| lo <= a < n && apparent[a] == positions[i];
      assert positions[|chosen|] < positions[i];
      assert a != lo;
      assert apparent[lo + 1..n][a - lo - 1] == positions[i];
    }
  }

  /** Skipping apparent[lo] when the next position lies after it keeps the walk going. */
  lemma SkipReady(apparent: seq<int>, n: int, chosen: seq<int>, lo: nat, positions: seq<int>)
    requires Walk(apparent, n, chosen, lo) && lo < n && |chosen| < |positions|
    requires InLine(positions) && Increasing(positions)
    requires Completes(apparent, n, chosen, lo, positions) && positions[|chosen|] != apparent[lo]
    ensures Walk(apparent, n, chosen, lo + 1)
    ensures Completes(apparent, n, chosen, lo + 1, positions)
  {
    var b :| lo <= b < n && apparent[b] == positions[|chosen|];
    assert apparent[lo] < positions[|chosen|];
    forall i | |chosen| <= i < |positions|
      ensures positions[i] in apparent[lo + 1..n]
    {
      var a :| lo <= a < n && apparent[a] == positions[i];
      if i > |chosen| {
        assert positions[|chosen|] < positions[i];
      }
      assert a != lo;
      assert apparent[lo + 1..n][a - lo - 1] == positions[i];
    }
  }

  // ---------------------------------------------------------------------
  // Lemmas: the whole search

  /** Every cluster of `r` has size k and k positions. */
  predicate OfSize(r: seq<LineCluster>, k: int)
  {
    forall x :: x in r ==> x.size == k && |x.positions| == k
  }

  /** Every cluster of `r` has size at least k. */
  predicate AtLeast(r: seq<LineCluster>, k: int)
  {
    forall x :: x in r ==> k <= x.size
  }

  /** Every cluster of `r` lies on positions of the line that `claimed` leaves free. */
  predicate Avoids(r: seq<LineCluster>, claimed: seq<bool>)
    requires |claimed| == 9
  {
    forall x, p {:trigger p in x.positions, x in r} :: x in r && p in x.positions ==> 0 <= p < 9 && !claimed[p]
  }

  /** Every position of every cluster of `r` is claimed in `claimed`. */
  predicate Marks(r: seq<LineCluster>, claimed: seq<bool>)
    requires |claimed| == 9
  {
    forall x, p {:trigger p in x.positions, x in r} :: x in r && p in x.positions ==> 0 <= p < 9 && claimed[p]
  }

  /** `after` claims at least what `before` claims. */
  predicate Grows(before: seq<bool>, after: seq<bool>)
    requires |before| == 9 && |after| == 9
  {
    forall p :: 0 <= p < 9 && before[p] ==> after[p]
  }

  predicate AllValid(cells: seq<Bits>, r: seq<LineCluster>)
    requires |cells| == 9
  {
    forall x :: x in r ==> ValidCluster(cells, x)
  }

  /** The unclaimed positions, as the start of the walk over the first n of them. */
  lemma UnclaimedWalk(claimed: seq<bool>, n: int)
    requires |claimed| == 9 && n <= 9 - CountTrue(claimed)
    ensures Walk(Unclaimed(claimed), n, [], 0)
  {
    UnclaimedEntries(claimed);
    UnclaimedIncreasing(claimed);
    UnclaimedLength(claimed);
  }

  /** A position listed as unclaimed is a free position of the line. */
  lemma UnclaimedMember(claimed: seq<bool>, p: int)
    requires |claimed| == 9 && p in Unclaimed(claimed)
    ensures 0 <= p < 9 && !claimed[p]
  {
    UnclaimedEntries(claimed);
  }

  /** Soundness of one searched size: valid clusters of that size on unclaimed positions. */
  lemma SizeFoundSound(cells: seq<Bits>, k: int, claimed: seq<bool>, num: int)
    requires |cells| == 9 && |claimed| == 9 && 1 <= k <= 3 && k < 9 - num && CountTrue(claimed) <= num
    ensures forall x :: x in SizeFound(cells, k, claimed, num) ==>
      ValidCluster(cells, x) && x.size == k && forall p :: p in x.positions ==> 0 <= p < 9 && !claimed[p]
  {
    var apparent := Unclaimed(claimed);
    UnclaimedWalk(claimed, 9 - num);
    SearchValid(cells, apparent, 9 - num, k, [], 0);
    var found := Search(cells, apparent, 9 - num, k, [], 0);
    assert SizeFound(cells, k, claimed, num) == found;
    forall x | x in found
      ensures forall p :: p in x.positions ==> 0 <= p < 9 && !claimed[p]
    {
      forall p | p in x.positions
        ensures 0 <= p < 9 && !claimed[p]
      {
        UnclaimedMember(claimed, p);
      }
    }
  }

  /** No cluster is listed twice. */
  predicate Distinct(found: seq<LineCluster>)
  {
    forall i, j :: 0 <= i < j < |found| ==> found[i] != found[j]
  }

  /** A cluster the walk lists extends `chosen`, and its next position is apparent[j]
      for some j from lo up to n. */
  predicate Continues(x: LineCluster, apparent: seq<int>, n: int, chosen: seq<int>, lo: nat)
  {
    && |chosen| <= |x.positions|
    && x.positions[..|chosen|] == chosen
    && (|chosen| < |x.positions| ==>
          exists j :: lo <= j < n && j < |apparent| && x.positions[|chosen|] == apparent[j])
  }

  lemma {:induction false} SearchContinues(cells: seq<Bits>, apparent: seq<int>, n: int, k: int,
                                           chosen: seq<int>, lo: nat)
    requires |cells| == 9 && InLine(apparent) && n <= |apparent| && InLine(chosen) && |chosen| <= k
    ensures forall x :: x in Search(cells, apparent, n, k, chosen, lo) ==>
      |x.positions| == k && Continues(x, apparent, n, chosen, lo)
    decreases n - lo
  {
    if |chosen| < k && lo < n {
      var taken := chosen + [apparent[lo]];
      SearchContinues(cells, apparent, n, k, taken, lo + 1);
      SearchContinues(cells, apparent, n, k, chosen, lo + 1);
      forall x | x in Search(cells, apparent, n, k, taken, lo + 1)
        ensures Continues(x, apparent, n, chosen, lo)
      {
        assert x.positions[..|chosen|] == x.positions[..|taken|][..|chosen|];
        assert x.positions[|chosen|] == x.positions[..|taken|][|chosen|];
      }
    }
  }

  /** The walk lists each cluster at most once: the clusters that take apparent[lo]
      and those that leave it differ in the position after `chosen`. */
  lemma {:induction false} SearchDistinct(cells: seq<Bits>, apparent: seq<int>, n: int, k: int,
                                          chosen: seq<int>, lo: nat)
    requires |cells| == 9 && InLine(apparent) && Increasing(apparent) && n <= |apparent|
    requires InLine(chosen) && |chosen| <= k
    ensures Distinct(Search(cells, apparent, n, k, chosen, lo))
    decreases n - lo
  {
    if |chosen| < k && lo < n {
      var taken := chosen + [apparent[lo]];
      SearchDistinct(cells, apparent, n, k, taken, lo + 1);
      SearchDistinct(cells, apparent, n, k, chosen, lo + 1);
      var a := Search(cells, apparent, n, k, taken, lo + 1);
      var b := Search(cells, apparent, n, k, chosen, lo + 1);
      assert Search(cells, apparent, n, k, chosen, lo) == a + b;
      BranchesDisjoint(cells, apparent, n, k, chosen, lo);
      DistinctAppend(a, b);
    }
  }

  /** No cluster of `a` is also in `b`. */
  predicate Apart(a: seq<LineCluster>, b: seq<LineCluster>)
  {
    forall i, j :: 0 <= i < |a| && 0 <= j < |b| ==> a[i] != b[j]
  }

  /** No cluster found by taking apparent[lo] is also found by leaving it. */
  lemma BranchesDisjoint(cells: seq<Bits>, apparent: seq<int>, n: int, k: int, chosen: seq<int>, lo: nat)
    requires |cells| == 9 && InLine(apparent) && Increasing(apparent) && n <= |apparent|
    requires InLine(chosen) && |chosen| < k && lo < n
    ensures Apart(Search(cells, apparent, n, k, chosen + [apparent[lo]], lo + 1), Search(cells, apparent, n, k, chosen, lo + 1))
  {
    var taken := chosen + [apparent[lo]];
    var a := Search(cells, apparent, n, k, taken, lo + 1);
    var b := Search(cells, apparent, n, k, chosen, lo + 1);
    SearchContinues(cells, apparent, n, k, taken, lo + 1);
    SearchContinues(cells, apparent, n, k, chosen, lo + 1);
    forall i, j | 0 <= i < |a| && 0 <= j < |b|
      ensures a[i] != b[j]
    {
      assert a[i] in a && b[j] in b;
      BranchesDiffer(a[i], b[j], apparent, n, chosen, lo);
    }
  }

  /** A cluster that takes apparent[lo] differs from one that leaves it. */
  lemma BranchesDiffer(x: LineCluster, y: LineCluster, apparent: seq<int>, n: int, chosen: seq<int>, lo: int)
    requires Increasing(apparent) && 0 <= lo < n <= |apparent| && |chosen| < |y.positions|
    requires Continues(x, apparent, n, chosen + [apparent[lo]], lo + 1)
    requires Continues(y, apparent, n, chosen, lo + 1)
    ensures x != y
  {
    var taken := chosen + [apparent[lo]];
    assert x.positions[|chosen|] == x.positions[..|taken|][|chosen|];
    var m :| lo + 1 <= m < n && m < |apparent| && y.positions[|chosen|] == apparent[m];
    assert apparent[lo] < apparent[m];
  }

  lemma DistinctAppend(a: seq<LineCluster>, b: seq<LineCluster>)
    requires Distinct(a) && Distinct(b) && Apart(a, b)
    ensures Distinct(a + b)
  {
    forall i, j | 0 <= i < j < |a + b|
      ensures (a + b)[i] != (a + b)[j]
    {
      if j < |a| {
        assert (a + b)[i] == a[i] && (a + b)[j] == a[j];
      } else if i < |a| {
        assert (a + b)[i] == a[i] && (a + b)[j] == b[j - |a|];
      } else {
        assert (a + b)[i] == b[i - |a|] && (a + b)[j] == b[j - |a|];
      }
    }
  }

  /** One searched size lists each of its clusters once. */
  lemma SizeFoundDistinct(cells: seq<Bits>, k: int, claimed: seq<bool>, num: int)
    requires |cells| == 9 && |claimed| == 9 && 1 <= k <= 3 && k < 9 - num && CountTrue(claimed) <= num
    ensures Distinct(SizeFound(cells, k, claimed, num))
  {
    UnclaimedWalk(claimed, 9 - num);
    SearchDistinct(cells, Unclaimed(claimed), 9 - num, k, [], 0);
  }

  /** The clusters of one searched size have that size and lie on unclaimed positions. */
  lemma SizeFoundShape(cells: seq<Bits>, k: int, claimed: seq<bool>, num: int)
    requires |cells| == 9 && |claimed| == 9 && 1 <= k <= 3 && k < 9 - num && CountTrue(claimed) <= num
    ensures OfSize(SizeFound(cells, k, claimed, num), k)
    ensures Avoids(SizeFound(cells, k, claimed, num), claimed)
  {
    SizeFoundSound(cells, k, claimed, num);
  }

  /** The clusters of one searched size are valid. */
  lemma SizeFoundValid(cells: seq<Bits>, k: int, claimed: seq<bool>, num: int)
    requires |cells| == 9 && |claimed| == 9 && 1 <= k <= 3 && k < 9 - num && CountTrue(claimed) <= num
    ensures AllValid(cells, SizeFound(cells, k, claimed, num))
  {
    SizeFoundSound(cells, k, claimed, num);
  }

  /** FindFrom once sizes are exhausted or skipped. */
  lemma FindFromStop(cells: seq<Bits>, k: int, claimed: seq<bool>, num: int)
    requires |cells| == 9 && |claimed| == 9 && 1 <= k && CountTrue(claimed) <= num
    requires k > 3 || k >= 9 - num
    ensures FindFrom(cells, k, claimed, num) == []
  {
  }

  /** FindFrom for a searched size: its clusters, then those of the larger sizes from the
      state after claiming them. */
  lemma FindFromStep(cells: seq<Bits>, k: int, claimed: seq<bool>, num: int)
    returns (found: seq<LineCluster>, claimed': seq<bool>, num': int)
    requires |cells| == 9 && |claimed| == 9 && 1 <= k <= 3 && k < 9 - num && CountTrue(claimed) <= num
    ensures found == SizeFound(cells, k, claimed, num)
    ensures AllInLine(found) && |claimed'| == 9 && CountTrue(claimed') <= num'
    ensures claimed' == ClaimClusters(claimed, found) && num' == num + Weight(found)
    ensures FindFrom(cells, k, claimed, num) == found + FindFrom(cells, k + 1, claimed', num')
  {
    found := SizeFound(cells, k, claimed, num);
    claimed' := ClaimClusters(claimed, found);
    num' := num + Weight(found);
    FindFromSearched(cells, k, claimed, num, found, claimed', num');
  }

  lemma FindFromSearched(cells: seq<Bits>, k: int, claimed: seq<bool>, num: int,
                         found: seq<LineCluster>, claimed': seq<bool>, num': int)
    requires |cells| == 9 && |claimed| == 9 && 1 <= k <= 3 && k < 9 - num && CountTrue(claimed) <= num
    requires found == SizeFound(cells, k, claimed, num)
    requires claimed' == ClaimClusters(claimed, found) && num' == num + Weight(found)
    ensures |claimed'| == 9 && CountTrue(claimed') <= num'
    ensures FindFrom(cells, k, claimed, num) == FindAfter(cells, k, found, claimed', num')
  {
  }

  /** Every cluster from size k on is at least k in size and avoids the positions
      already claimed. */
  lemma {:induction false} FindFromShape(cells: seq<Bits>, k: int, claimed: seq<bool>, num: int)
    requires |cells| == 9 && |claimed| == 9 && 1 <= k && CountTrue(claimed) <= num
    ensures AtLeast(FindFrom(cells, k, claimed, num), k)
    ensures Avoids(FindFrom(cells, k, claimed, num), claimed)
    decreases 4 - k
  {
    if k > 3 || k >= 9 - num {
      FindFromStop(cells, k, claimed, num);
    } else {
      var found, claimed', num' := FindFromStep(cells, k, claimed, num);
      SizeFoundShape(cells, k, claimed, num);
      ClaimClustersMonotone(claimed, found);
      FindFromShape(cells, k + 1, claimed', num');
      JoinShape(found, FindFrom(cells, k + 1, claimed', num'), k, claimed, claimed');
    }
  }

  lemma JoinShape(found: seq<LineCluster>, rest: seq<LineCluster>, k: int,
                  claimed: seq<bool>, claimed': seq<bool>)
    requires |claimed| == 9 && |claimed'| == 9
    requires OfSize(found, k) && Avoids(found, claimed)
    requires AtLeast(rest, k + 1) && Avoids(rest, claimed') && Grows(claimed, claimed')
    ensures AtLeast(found + rest, k) && Avoids(found + rest, claimed)
  {
    forall x | x in found + rest
      ensures k <= x.size
    {
      if x in found {
        assert x.size == k;
      } else {
        assert k + 1 <= x.size;
      }
    }
    forall x, p | x in found + rest && p in x.positions
      ensures 0 <= p < 9 && !claimed[p]
    {
      if x in found {
        assert !claimed[p];
      } else {
        assert !claimed'[p];
      }
    }
  }

  /** Every cluster from size k on is valid. */
  lemma {:induction false} FindFromValid(cells: seq<Bits>, k: int, claimed: seq<bool>, num: int)
    requires |cells| == 9 && |claimed| == 9 && 1 <= k && CountTrue(claimed) <= num
    ensures AllValid(cells, FindFrom(cells, k, claimed, num))
    decreases 4 - k
  {
    if k > 3 || k >= 9 - num {
      FindFromStop(cells, k, claimed, num);
    } else {
      var found, claimed', num' := FindFromStep(cells, k, claimed, num);
      SizeFoundValid(cells, k, claimed, num);
      FindFromValid(cells, k + 1, claimed', num');
      JoinValid(cells, found, FindFrom(cells, k + 1, claimed', num'));
    }
  }

  lemma JoinValid(cells: seq<Bits>, found: seq<LineCluster>, rest: seq<LineCluster>)
    requires |cells| == 9 && AllValid(cells, found) && AllValid(cells, rest)
    ensures AllValid(cells, found + rest)
  {
  }

  /** What FindLineClusters promises of every cluster it returns. */
  lemma ClustersValid(cells: seq<Bits>)
    requires |cells| == 9
    ensures forall x :: x in Clusters(cells) ==> ValidCluster(cells, x)
  {
    FindFromValid(cells, 1, NoClaims(), 0);
  }

  predicate SizesSorted(r: seq<LineCluster>)
  {
    forall i, j :: 0 <= i < j < |r| ==> r[i].size <= r[j].size
  }

  /** Clusters come in nondecreasing order of size. */
  lemma {:induction false} FindFromSizeOrder(cells: seq<Bits>, k: int, claimed: seq<bool>, num: int)
    requires |cells| == 9 && |claimed| == 9 && 1 <= k && CountTrue(claimed) <= num
    ensures SizesSorted(FindFrom(cells, k, claimed, num))
    decreases 4 - k
  {
    if k > 3 || k >= 9 - num {
      FindFromStop(cells, k, claimed, num);
    } else {
      var found, claimed', num' := FindFromStep(cells, k, claimed, num);
      SizeFoundShape(cells, k, claimed, num);
      FindFromShape(cells, k + 1, claimed', num');
      FindFromSizeOrder(cells, k + 1, claimed', num');
      JoinSizeOrder(found, FindFrom(cells, k + 1, claimed', num'), k);
    }
  }

  lemma JoinSizeOrder(found: seq<LineCluster>, rest: seq<LineCluster>, k: int)
    requires OfSize(found, k) && AtLeast(rest, k + 1) && SizesSorted(rest)
    ensures SizesSorted(found + rest)
  {
    var r := found + rest;
    forall i, j | 0 <= i < j < |r|
      ensures r[i].size <= r[j].size
    {
      if j < |found| {
        assert r[i] == found[i] && r[j] == found[j];
        assert found[i] in found && found[j] in found;
      } else if i < |found| {
        assert r[i] == found[i] && found[i] in found;
        assert r[j] == rest[j - |found|] && rest[j - |found|] in rest;
      } else {
        assert r[i] == rest[i - |found|] && r[j] == rest[j - |found|];
      }
    }
  }

  /** Clusters of different sizes share no position. */
  predicate DisjointAcrossSizes(r: seq<LineCluster>)
  {
    forall x, y, p :: x in r && y in r && x.size < y.size && p in x.positions ==> p !in y.positions
  }

  /** Claiming marks every position of every claimed cluster. */
  lemma ClaimClustersCovers(claimed: seq<bool>, found: seq<LineCluster>)
    requires |claimed| == 9 && AllInLine(found)
    ensures Marks(found, ClaimClusters(claimed, found))
  {
    forall x, p | x in found && p in x.positions
      ensures 0 <= p < 9 && ClaimClusters(claimed, found)[p]
    {
      var j :| 0 <= j < |found| && found[j] == x;
      var i :| 0 <= i < |x.positions| && x.positions[i] == p;
      assert InLine(found[j].positions);
      ClaimClustersAt(claimed, found, p);
    }
  }

  /** A cluster never reuses a position claimed by a cluster of a smaller size. */
  lemma {:induction false} FindFromDisjointSizes(cells: seq<Bits>, k: int, claimed: seq<bool>, num: int)
    requires |cells| == 9 && |claimed| == 9 && 1 <= k && CountTrue(claimed) <= num
    ensures DisjointAcrossSizes(FindFrom(cells, k, claimed, num))
    decreases 4 - k
  {
    if k > 3 || k >= 9 - num {
      FindFromStop(cells, k, claimed, num);
    } else {
      var found, claimed', num' := FindFromStep(cells, k, claimed, num);
      SizeFoundShape(cells, k, claimed, num);
      ClaimClustersCovers(claimed, found);
      FindFromShape(cells, k + 1, claimed', num');
      FindFromDisjointSizes(cells, k + 1, claimed', num');
      JoinDisjoint(found, FindFrom(cells, k + 1, claimed', num'), k, claimed');
    }
  }

  lemma JoinDisjoint(found: seq<LineCluster>, rest: seq<LineCluster>, k: int, claimed': seq<bool>)
    requires |claimed'| == 9
    requires OfSize(found, k) && Marks(found, claimed')
    requires AtLeast(rest, k + 1) && Avoids(rest, claimed') && DisjointAcrossSizes(rest)
    ensures DisjointAcrossSizes(found + rest)
  {
    forall x, y, p | x in found + rest && y in found + rest && x.size < y.size && p in x.positions
      ensures p !in y.positions
    {
      if x in found {
        assert x.size == k && y !in found;
        assert 0 <= p < 9 && claimed'[p];
      } else {
        assert k + 1 <= x.size && y !in found;
      }
    }
  }

  /** Sum of the sizes of the clusters of `r` smaller than `s`: what num_in_cluster
      counts when size s is reached. */
  function ClaimedBefore(r: seq<LineCluster>, s: int): int
  {
    if r == [] then 0
    else ClaimedBefore(r[..|r| - 1], s) + (if r[|r| - 1].size < s then r[|r| - 1].size else 0)
  }

  lemma {:induction false} ClaimedBeforeAppend(a: seq<LineCluster>, b: seq<LineCluster>, s: int)
    ensures ClaimedBefore(a + b, s) == ClaimedBefore(a, s) + ClaimedBefore(b, s)
    decreases |b|
  {
    if b != [] {
      ClaimedBeforeAppend(a, b[..|b| - 1], s);
      assert (a + b)[..|a + b| - 1] == a + b[..|b| - 1];
      assert (a + b)[|a + b| - 1] == b[|b| - 1];
    } else {
      assert a + b == a;
    }
  }

  lemma {:induction false} ClaimedBeforeUniform(found: seq<LineCluster>, k: int, s: int)
    requires OfSize(found, k)
    ensures ClaimedBefore(found, s) == if k < s then Weight(found) else 0
  {
    if found != [] {
      var init := found[..|found| - 1];
      assert found[|found| - 1] in found;
      assert OfSize(init, k) by {
        forall x | x in init ensures x.size == k && |x.positions| == k {
          var i :| 0 <= i < |init| && init[i] == x;
          assert found[i] == x;
        }
      }
      ClaimedBeforeUniform(init, k, s);
    }
  }

  /** Every cluster's size is below 9 minus `num` and the sizes of the smaller clusters. */
  predicate BreakRespected(r: seq<LineCluster>, num: int)
  {
    forall x :: x in r ==> x.size < 9 - num - ClaimedBefore(r, x.size)
  }

  /** The early break of engine.c:403: a size is searched only while it is below
      9 minus the positions counted as claimed by the smaller sizes. */
  lemma {:induction false} FindFromBreak(cells: seq<Bits>, k: int, claimed: seq<bool>, num: int)
    requires |cells| == 9 && |claimed| == 9 && 1 <= k && CountTrue(claimed) <= num
    ensures BreakRespected(FindFrom(cells, k, claimed, num), num)
    decreases 4 - k
  {
    if k > 3 || k >= 9 - num {
      FindFromStop(cells, k, claimed, num);
    } else {
      var found, claimed', num' := FindFromStep(cells, k, claimed, num);
      SizeFoundShape(cells, k, claimed, num);
      FindFromShape(cells, k + 1, claimed', num');
      FindFromBreak(cells, k + 1, claimed', num');
      JoinBreak(found, FindFrom(cells, k + 1, claimed', num'), k, num);
    }
  }

  lemma JoinBreak(found: seq<LineCluster>, rest: seq<LineCluster>, k: int, num: int)
    requires k < 9 - num && OfSize(found, k) && AtLeast(rest, k + 1)
    requires BreakRespected(rest, num + Weight(found))
    ensures BreakRespected(found + rest, num)
  {
    var r := found + rest;
    forall x | x in r
      ensures x.size < 9 - num - ClaimedBefore(r, x.size)
    {
      ClaimedBeforeAppend(found, rest, x.size);
      ClaimedBeforeUniform(found, k, x.size);
      if x in found {
        ClaimedBeforeZero(rest, x.size);
      }
    }
  }

  lemma {:induction false} ClaimedBeforeZero(r: seq<LineCluster>, s: int)
    requires AtLeast(r, s)
    ensures ClaimedBefore(r, s) == 0
  {
    if r != [] {
      var init := r[..|r| - 1];
      assert r[|r| - 1] in r;
      assert AtLeast(init, s) by {
        forall x | x in init ensures s <= x.size {
          var i :| 0 <= i < |init| && init[i] == x;
          assert r[i] == x;
        }
      }
      ClaimedBeforeZero(init, s);
    }
  }

  /** With nothing claimed, the apparent indices are the positions themselves. */
  lemma UnclaimedNoClaims()
    ensures Unclaimed(NoClaims()) == Iota(0, 9)
  {
    var apparent := Unclaimed(NoClaims());
    UnclaimedSpec(NoClaims());
    forall i | 0 <= i < 9
      ensures apparent[i] == i
    {
      MapIdentity(apparent, i);
    }
  }

  /** Completeness of a searched size: while every claim is counted once, each set of
      k unclaimed positions whose candidates number exactly k is found. */
  lemma SizeFoundComplete(cells: seq<Bits>, k: int, claimed: seq<bool>, num: int, positions: seq<int>)
    requires |cells| == 9 && |claimed| == 9 && 1 <= k <= 3 && k < 9 - num && CountTrue(claimed) == num
    requires |positions| == k && InLine(positions) && Increasing(positions)
    requires forall i :: 0 <= i < k ==> !claimed[positions[i]]
    requires Pop(UnionAt(cells, positions)) == k
    ensures LineCluster(k, UnionAt(cells, positions), positions) in SizeFound(cells, k, claimed, num)
  {
    var apparent := Unclaimed(claimed);
    UnclaimedWalk(claimed, 9 - num);
    UnclaimedLength(claimed);
    UnclaimedComplete(claimed);
    assert apparent[0..9 - num] == apparent;
    SearchComplete(cells, apparent, 9 - num, k, [], 0, positions);
  }

  /** Naked singles: a cell with exactly one candidate is a size-1 cluster, and every
      size-1 cluster is such a cell. */
  lemma NakedSingles(cells: seq<Bits>, p: int)
    requires |cells| == 9 && 0 <= p < 9
    ensures Pop(cells[p]) == 1 <==> LineCluster(1, cells[p], [p]) in Clusters(cells)
  {
    assert UnionAt(cells, [p]) == cells[p] by {
      assert [p][..0] == [];
    }
    if Pop(cells[p]) == 1 {
      SizeFoundComplete(cells, 1, NoClaims(), 0, [p]);
    } else {
      ClustersValid(cells);
    }
  }

  /** An increasing sequence of nine positions in [0, 9) is 0, 1, ..., 8. */
  lemma MapIdentity(apparent: seq<int>, i: int)
    requires |apparent| == 9 && Increasing(apparent) && InLine(apparent) && 0 <= i < 9
    ensures apparent[i] == i
  {
    CombGap(apparent, 0, i);
    CombGap(apparent, i, 8);
  }

  /** A cell with more candidates than k is never a member of a k-cluster. */
  lemma ClusterMembersSmall(cells: seq<Bits>, x: LineCluster, i: int)
    requires |cells| == 9 && ValidCluster(cells, x) && 0 <= i < |x.positions|
    ensures Pop(cells[x.positions[i]]) <= x.size
  {
    UnionAtMember(cells, x.positions, i);
    PopSubset(cells[x.positions[i]], x.bitset);
  }

  /** A line whose every cell has more than three candidates has no clusters. */
  lemma NoSmallCellsNoClusters(cells: seq<Bits>)
    requires |cells| == 9 && forall p :: 0 <= p < 9 ==> Pop(cells[p]) > 3
    ensures Clusters(cells) == []
  {
    ClustersValid(cells);
    NoSmallCellsNoValid(cells, Clusters(cells));
  }

  /** Valid clusters only hold cells with at most three candidates. */
  lemma NoSmallCellsNoValid(cells: seq<Bits>, r: seq<LineCluster>)
    requires |cells| == 9 && forall p :: 0 <= p < 9 ==> Pop(cells[p]) > 3
    requires AllValid(cells, r)
    ensures r == []
  {
    if r != [] {
      assert r[0] in r;
      ClusterMembersSmall(cells, r[0], 0);
    }
  }

  // ---------------------------------------------------------------------
  // The imperative search

  /** The scan of engine.c:408-418, with the bound that the inner loop at engine.c:413
      lacks: the unclaimed positions in increasing order. */
  method UnclaimedPositions(isInCluster: array<bool>) returns (apparentToRealIndex: seq<int>)
    requires isInCluster.Length == 9
    ensures apparentToRealIndex == Unclaimed(isInCluster[..])
  {
    apparentToRealIndex := [];
    var realIndex := 0;
    while realIndex < 9
      invariant 0 <= realIndex <= 9
      invariant apparentToRealIndex == Unclaimed(isInCluster[..realIndex])
    {
      while realIndex < 9 && isInCluster[realIndex]
        invariant 0 <= realIndex <= 9
        invariant apparentToRealIndex == Unclaimed(isInCluster[..realIndex])
      {
        assert isInCluster[..realIndex + 1][..realIndex] == isInCluster[..realIndex];
        realIndex := realIndex + 1;
      }
      if realIndex < 9 {
        assert isInCluster[..realIndex + 1][..realIndex] == isInCluster[..realIndex];
        apparentToRealIndex := apparentToRealIndex + [realIndex];
        realIndex := realIndex + 1;
      }
    }
    assert isInCluster[..9] == isInCluster[..];
  }

  /** engine.c:427-430: the OR of the candidates of the cells a combination stands for. */
  method ComboUnion(cells: seq<Bits>, apparentToRealIndex: seq<int>, apparentIndices: array<int>)
    returns (bitsSet: Bits)
    requires |cells| == 9 && InLine(apparentToRealIndex)
    requires forall i :: 0 <= i < apparentIndices.Length ==> 0 <= apparentIndices[i] < |apparentToRealIndex|
    ensures bitsSet == UnionAt(cells, RealPositions(apparentToRealIndex, apparentIndices[..]))
  {
    ghost var positions := RealPositions(apparentToRealIndex, apparentIndices[..]);
    bitsSet := 0;
    for index := 0 to apparentIndices.Length
      invariant bitsSet == UnionAt(cells, positions[..index])
    {
      assert positions[..index + 1][..index] == positions[..index];
      bitsSet := bitsSet | cells[apparentToRealIndex[apparentIndices[index]]];
    }
    assert positions[..apparentIndices.Length] == positions;
  }

  /** engine.c:432-440: records the positions of a found cluster and claims them,
      counting one per position in num_in_cluster. */
  method ClaimCombo(apparentToRealIndex: seq<int>, apparentIndices: array<int>,
                    isInCluster: array<bool>, numInCluster: int)
    returns (positions: seq<int>, newNumInCluster: int)
    requires InLine(apparentToRealIndex) && isInCluster.Length == 9
    requires forall i :: 0 <= i < apparentIndices.Length ==> 0 <= apparentIndices[i] < |apparentToRealIndex|
    modifies isInCluster
    ensures positions == RealPositions(apparentToRealIndex, apparentIndices[..])
    ensures isInCluster[..] == ClaimPositions(old(isInCluster[..]), positions)
    ensures newNumInCluster == numInCluster + |positions|
  {
    ghost var all := RealPositions(apparentToRealIndex, apparentIndices[..]);
    positions := [];
    newNumInCluster := numInCluster;
    for index := 0 to apparentIndices.Length
      invariant positions == all[..index]
      invariant isInCluster[..] == ClaimPositions(old(isInCluster[..]), positions)
      invariant newNumInCluster == numInCluster + index
    {
      var realIndex := apparentToRealIndex[apparentIndices[index]];
      assert all[..index + 1] == positions + [realIndex];
      positions := positions + [realIndex];
      isInCluster[realIndex] := true;
      newNumInCluster := newNumInCluster + 1;
    }
  }

  /** engine.c:426-448, one combination: keeps it as a cluster when the candidates of its
      cells number exactly `groupSize`, and then claims its positions. */
  method VisitCombination(cells: seq<Bits>, apparentToRealIndex: seq<int>, groupSize: int,
                          apparentIndices: array<int>, isInCluster: array<bool>,
                          found: seq<LineCluster>, numInCluster: int, ghost claimed: seq<bool>)
    returns (found': seq<LineCluster>, numInCluster': int)
    requires |cells| == 9 && isInCluster.Length == 9 && |claimed| == 9 && InLine(apparentToRealIndex)
    requires forall i :: 0 <= i < apparentIndices.Length ==> 0 <= apparentIndices[i] < |apparentToRealIndex|
    requires AllInLine(found) && isInCluster[..] == ClaimClusters(claimed, found)
    modifies isInCluster
    ensures found' == found +
      (var x := ClusterOf(cells, apparentToRealIndex, groupSize, apparentIndices[..]);
       if Pop(x.bitset) == groupSize then [x] else [])
    ensures AllInLine(found') && isInCluster[..] == ClaimClusters(claimed, found')
    ensures numInCluster' - Weight(found') == numInCluster - Weight(found)
  {
    var bitsSet := ComboUnion(cells, apparentToRealIndex, apparentIndices);
    var bitCount := BitCount(bitsSet);
    found', numInCluster' := found, numInCluster;
    if bitCount == groupSize {
      var positions;
      positions, numInCluster' := ClaimCombo(apparentToRealIndex, apparentIndices, isInCluster, numInCluster);
      var cluster := LineCluster(groupSize, bitsSet, positions);
      ClaimClustersSnoc(claimed, found, cluster);
      found' := found + [cluster];
    }
  }

  /** engine.c:420-423: the first combination of apparent indices, 0, 1, ..., groupSize - 1. */
  method FirstCombination(groupSize: nat) returns (apparentIndices: array<int>)
    ensures fresh(apparentIndices) && apparentIndices[..] == Iota(0, groupSize)
  {
    apparentIndices := new int[groupSize];
    for index := 0 to groupSize
      modifies apparentIndices
      invariant forall i :: 0 <= i < index ==> apparentIndices[i] == i
    {
      apparentIndices[index] := index;
    }
  }

  /** engine.c:419-476: visits every combination of `groupSize` of the
      `numApparentIndices` apparent indices in the order of the generator (`combos`),
      keeping those whose candidates number exactly `groupSize` and claiming their positions. */
  method ScanCombinations(cells: seq<Bits>, apparentToRealIndex: seq<int>, numApparentIndices: int,
                          groupSize: int, isInCluster: array<bool>, numInCluster: int,
                          ghost combos: seq<seq<int>>)
    returns (found: seq<LineCluster>, newNumInCluster: int)
    requires |cells| == 9 && isInCluster.Length == 9 && 1 <= groupSize
    requires Enumerates(combos, groupSize, numApparentIndices)
    requires InLine(apparentToRealIndex) && Indexes(combos, |apparentToRealIndex|)
    modifies isInCluster
    ensures found == SizeScan(cells, apparentToRealIndex, groupSize, combos)
    ensures AllInLine(found)
    ensures isInCluster[..] == ClaimClusters(old(isInCluster[..]), found)
    ensures newNumInCluster == numInCluster + Weight(found)
  {
    ghost var claimed := isInCluster[..];
    var apparentIndices := FirstCombination(groupSize);
    found := [];
    newNumInCluster := numInCluster;
    ghost var t := 0;
    assert combos[..0] == [];
    while true
      invariant 0 <= t < |combos| && apparentIndices[..] == combos[t] && StepsFrom(combos, numApparentIndices, t)
      invariant Indexes(combos[..t], |apparentToRealIndex|)
      invariant found == SizeScan(cells, apparentToRealIndex, groupSize, combos[..t])
      invariant AllInLine(found)
      invariant isInCluster[..] == ClaimClusters(claimed, found)
      invariant newNumInCluster == numInCluster + Weight(found)
      decreases |combos| - t
    {
      SizeScanSnoc(cells, apparentToRealIndex, groupSize, combos, t);
      found, newNumInCluster := VisitCombination(cells, apparentToRealIndex, groupSize, apparentIndices,
                                                 isInCluster, found, newNumInCluster, claimed);
      var lastIndex := AdvanceIndices(apparentIndices, numApparentIndices);
      if lastIndex == -1 {
        assert combos[..t + 1] == combos;
        break;
      }
      t := t + 1;
    }
  }

  /** engine.c:403-476, one cluster size: builds apparent_to_real_index from the
      unclaimed positions, then scans the combinations of `groupSize` apparent indices. */
  method FindClustersOfSize(cells: seq<Bits>, isInCluster: array<bool>, numInCluster: int, groupSize: int)
    returns (found: seq<LineCluster>, newNumInCluster: int)
    requires |cells| == 9 && isInCluster.Length == 9
    requires 1 <= groupSize <= 3 && groupSize < 9 - numInCluster
    requires CountTrue(isInCluster[..]) <= numInCluster
    modifies isInCluster
    ensures found == SizeFound(cells, groupSize, old(isInCluster[..]), numInCluster)
    ensures isInCluster[..] == ClaimClusters(old(isInCluster[..]), found)
    ensures newNumInCluster == numInCluster + Weight(found)
  {
    ghost var claimed := isInCluster[..];
    var numApparentIndices := 9 - numInCluster;
    var apparentToRealIndex := UnclaimedPositions(isInCluster);
    ghost var combos := SizeFoundPlan(cells, groupSize, claimed, numInCluster, apparentToRealIndex);
    found, newNumInCluster := ScanCombinations(cells, apparentToRealIndex, numApparentIndices, groupSize,
                                               isInCluster, numInCluster, combos);
  }

  /** The loop of FindLineClusters after searching size k: the groups so far followed by
      the larger sizes from the new state are still all the clusters of the line. */
  lemma FindFromAdvance(cells: seq<Bits>, groups: seq<LineCluster>, k: int, claimed: seq<bool>, num: int,
                        found: seq<LineCluster>, claimed': seq<bool>, num': int)
    requires |cells| == 9 && |claimed| == 9 && 1 <= k <= 3 && k < 9 - num && CountTrue(claimed) <= num
    requires groups + FindFrom(cells, k, claimed, num) == Clusters(cells)
    requires found == SizeFound(cells, k, claimed, num)
    requires AllInLine(found) && claimed' == ClaimClusters(claimed, found) && num' == num + Weight(found)
    ensures |claimed'| == 9 && CountTrue(claimed') <= num'
    ensures groups + found + FindFrom(cells, k + 1, claimed', num') == Clusters(cells)
  {
    FindFromSplit(cells, k, claimed, num, found, claimed', num');
    Regroup(groups, found, FindFrom(cells, k, claimed, num), FindFrom(cells, k + 1, claimed', num'), Clusters(cells));
  }

  /** FindFromStep for a state after size k given by the caller. */
  lemma FindFromSplit(cells: seq<Bits>, k: int, claimed: seq<bool>, num: int,
                      found: seq<LineCluster>, claimed': seq<bool>, num': int)
    requires |cells| == 9 && |claimed| == 9 && 1 <= k <= 3 && k < 9 - num && CountTrue(claimed) <= num
    requires found == SizeFound(cells, k, claimed, num)
    requires AllInLine(found) && claimed' == ClaimClusters(claimed, found) && num' == num + Weight(found)
    ensures |claimed'| == 9 && CountTrue(claimed') <= num'
    ensures FindFrom(cells, k, claimed, num) == found + FindFrom(cells, k + 1, claimed', num')
  {
    var next, after, count := FindFromStep(cells, k, claimed, num);
    assert next == found;
    assert after == claimed' && count == num';
  }

  /** Regrouping a concatenation, stated on plain lists so that the solver does not
      unfold the searches it is applied to. */
  lemma Regroup(groups: seq<LineCluster>, found: seq<LineCluster>, rest: seq<LineCluster>,
                later: seq<LineCluster>, all: seq<LineCluster>)
    requires groups + rest == all && rest == found + later
    ensures groups + found + later == all
  {
    assert groups + (found + later) == groups + found + later;
  }

  /** FindLineClusters (engine.c:387): the clusters of sizes 1, 2 and 3 of a line. */
  method FindLineClusters(cells: seq<Bits>) returns (groups: seq<LineCluster>)
    requires |cells| == 9
    ensures groups == Clusters(cells)
  {
    groups := [];
    var isInCluster := new bool[9](_ => false);
    assert isInCluster[..] == NoClaims();
    var numInCluster := 0;
    var groupSize := 1;
    while groupSize <= 3
      invariant 1 <= groupSize <= 4
      invariant CountTrue(isInCluster[..]) <= numInCluster
      invariant groups + FindFrom(cells, groupSize, isInCluster[..], numInCluster) == Clusters(cells)
    {
      if groupSize >= 9 - numInCluster {
        break;
      }
      ghost var claimed, num := isInCluster[..], numInCluster;
      var found;
      found, numInCluster := FindClustersOfSize(cells, isInCluster, numInCluster, groupSize);
      FindFromAdvance(cells, groups, groupSize, claimed, num, found, isInCluster[..], numInCluster);
      groups := groups + found;
      groupSize := groupSize + 1;
    }
    FindFromStop(cells, groupSize, isInCluster[..], numInCluster);
  }

  // ---------------------------------------------------------------------
  // The scan of engine.c:410-418 as written

  /** The inner loop of engine.c:413 as written: skips claimed positions with no
      bound; None when it reads is_in_cluster[9], past the end of the array. */
  function SkipClaimedAsWritten(claimed: seq<bool>, realIndex: int): Option<int>
    requires |claimed| == 9 && 0 <= realIndex <= 9
    decreases 9 - realIndex
  {
    if realIndex == 9 then None
    else if claimed[realIndex] then SkipClaimedAsWritten(claimed, realIndex + 1)
    else Some(realIndex)
  }

  /** The loop of engine.c:412-418 as written; None when it reads past the end. */
  function ScanAsWritten(claimed: seq<bool>, realIndex: int): Option<seq<int>>
    requires |claimed| == 9 && 0 <= realIndex <= 9
    decreases 9 - realIndex
  {
    if realIndex >= 9 then Some([])
    else match SkipClaimedAsWritten(claimed, realIndex)
      case None => None
      case Some(j) =>
        assert realIndex <= j < 9 by { SkipBounds(claimed, realIndex); }
        match ScanAsWritten(claimed, j + 1)
        case None => None
        case Some(rest) => Some([j] + rest)
  }

  lemma {:induction false} SkipBounds(claimed: seq<bool>, realIndex: int)
    requires |claimed| == 9 && 0 <= realIndex <= 9
    ensures SkipClaimedAsWritten(claimed, realIndex).Some? ==>
      realIndex <= SkipClaimedAsWritten(claimed, realIndex).value < 9
      && !claimed[SkipClaimedAsWritten(claimed, realIndex).value]
    decreases 9 - realIndex
  {
    if realIndex < 9 && claimed[realIndex] {
      SkipBounds(claimed, realIndex + 1);
    }
  }

  /** The scan as written reads past the end exactly when the last position is claimed. */
  lemma {:induction false} ScanAsWrittenOverruns(claimed: seq<bool>, realIndex: int)
    requires |claimed| == 9 && 0 <= realIndex < 9
    ensures ScanAsWritten(claimed, realIndex).None? <==> claimed[8]
    decreases 9 - realIndex
  {
    var skip := SkipClaimedAsWritten(claimed, realIndex);
    SkipOverruns(claimed, realIndex);
    SkipBounds(claimed, realIndex);
    if skip.Some? && skip.value + 1 < 9 {
      ScanAsWrittenOverruns(claimed, skip.value + 1);
    }
  }

  lemma {:induction false} SkipOverruns(claimed: seq<bool>, realIndex: int)
    requires |claimed| == 9 && 0 <= realIndex <= 9
    ensures SkipClaimedAsWritten(claimed, realIndex).None? <==> forall p :: realIndex <= p < 9 ==> claimed[p]
    decreases 9 - realIndex
  {
    if realIndex < 9 && claimed[realIndex] {
      SkipOverruns(claimed, realIndex + 1);
    }
  }

  /** Positions skipped by the inner loop are claimed. */
  lemma {:induction false} SkipFirst(claimed: seq<bool>, realIndex: int)
    requires |claimed| == 9 && 0 <= realIndex <= 9
    ensures SkipClaimedAsWritten(claimed, realIndex).Some? ==>
      SkipClaimedAsWritten(claimed, realIndex).value < 9
      && forall p :: realIndex <= p < SkipClaimedAsWritten(claimed, realIndex).value ==> claimed[p]
    decreases 9 - realIndex
  {
    if realIndex < 9 && claimed[realIndex] {
      SkipFirst(claimed, realIndex + 1);
    }
  }

  /** With the last position unclaimed, the scan as written lists the unclaimed
      positions from realIndex on, in increasing order, and stays inside the array. */
  lemma {:induction false} ScanAsWrittenLists(claimed: seq<bool>, realIndex: int)
    requires |claimed| == 9 && 0 <= realIndex <= 9 && !claimed[8]
    ensures ScanAsWritten(claimed, realIndex).Some?
    ensures Increasing(ScanAsWritten(claimed, realIndex).value)
    ensures forall p :: p in ScanAsWritten(claimed, realIndex).value <==> realIndex <= p < 9 && !claimed[p]
    decreases 9 - realIndex
  {
    if realIndex < 9 {
      SkipOverruns(claimed, realIndex);
      SkipBounds(claimed, realIndex);
      SkipFirst(claimed, realIndex);
      var j := SkipClaimedAsWritten(claimed, realIndex).value;
      ScanAsWrittenLists(claimed, j + 1);
      var rest := ScanAsWritten(claimed, j + 1).value;
      assert ScanAsWritten(claimed, realIndex) == Some([j] + rest);
      forall i | 0 <= i < |rest|
        ensures j < rest[i]
      {
        assert rest[i] in rest;
      }
    }
  }

  /** Two increasing sequences with the same entries are equal. */
  lemma {:induction false} IncreasingUnique(a: seq<int>, b: seq<int>)
    requires Increasing(a) && Increasing(b)
    requires forall x :: x in a <==> x in b
    ensures a == b
    decreases |a|
  {
    if a == [] {
      if b != [] {
        FirstMember(b);
      }
    } else {
      assert a[0] in a && b != [];
      assert b[0] in b;
      assert a[0] == b[0] by {
        assert a[0] in b;
        assert b[0] in a;
      }
      forall x
        ensures x in a[1..] <==> x in b[1..]
      {
        if x in a[1..] {
          assert x in b && x != b[0];
        }
        if x in b[1..] {
          assert x in a && x != a[0];
        }
      }
      IncreasingUnique(a[1..], b[1..]);
    }
  }

  lemma FirstMember(b: seq<int>)
    requires b != []
    ensures b[0] in b
  {
  }

  /** When the last position is unclaimed, the scan as written computes
      apparent_to_real_index as intended. */
  lemma ScanAsWrittenAgrees(claimed: seq<bool>)
    requires |claimed| == 9 && !claimed[8]
    ensures ScanAsWritten(claimed, 0) == Some(Unclaimed(claimed))
  {
    ScanAsWrittenLists(claimed, 0);
    UnclaimedSpec(claimed);
    var s := ScanAsWritten(claimed, 0).value;
    forall x
      ensures x in s <==> x in Unclaimed(claimed)
    {
      if x in Unclaimed(claimed) {
        var i :| 0 <= i < |Unclaimed(claimed)| && Unclaimed(claimed)[i] == x;
      }
    }
    IncreasingUnique(s, Unclaimed(claimed));
  }
}
