/** The regression cases of tests.c stated about the model: the population counts of
    TestBitCount, the exact cluster lists of the lines of TestFindLineClusters,
    TestFindLineClusters2 and TestFindLineClusters3, and the filtered line of
    TestFilterCellsByClusters. */
module Regression {
  import opened Options
  import opened Cell
  import opened Combinations
  import opened ClusterSearch
  import opened Filter

  /** TestBitCount (tests.c:259-262). */
  lemma BitCountValues()
    ensures Pop(5) == 2 && Pop(0) == 0 && Pop(64) == 1 && Pop(AllBits) == 9
  {
    PopExpand(5);
    PopExpand(0);
    PopExpand(64);
    PopExpand(AllBits);
  }

  /** The line of TestFindLineClusters3 (tests.c:240-242): every digit possible except
      in the last cell, which holds only digit 5. */
  function LineThree(): (cells: seq<Bits>)
    ensures |cells| == 9 && cells[8] == 16 && forall p :: 0 <= p < 8 ==> cells[p] == AllBits
  {
    seq(9, p => if p == 8 then 16 else AllBits)
  }

  /** FindLineClusters finds the single in the last cell of that line and nothing else
      (tests.c:244-246). */
  lemma LineThreeClusters()
    ensures LineCluster(1, 16, [8]) in Clusters(LineThree())
    ensures forall x :: x in Clusters(LineThree()) ==> x == LineCluster(1, 16, [8])
  {
    var cells := LineThree();
    PopExpand(16);
    NakedSingles(cells, 8);
    ClustersValid(cells);
    forall x | x in Clusters(cells)
      ensures x == LineCluster(1, 16, [8])
    {
      LineThreeOnlySingle(x);
    }
  }

  lemma LineThreeOnlySingle(x: LineCluster)
    requires ValidCluster(LineThree(), x)
    ensures x == LineCluster(1, 16, [8])
  {
    var cells := LineThree();
    BitCountValues();
    ClusterMembersSmall(cells, x, 0);
    ClusterMembersSmall(cells, x, |x.positions| - 1);
    assert x.positions == [8];
    assert UnionAt(cells, [8]) == 16 by {
      assert [8][..0] == [];
    }
  }

  /** After that single claims position 8, the scan of engine.c:412-418 as written
      reads past the end of is_in_cluster when it looks for the size-2 clusters. */
  lemma LineThreeOverruns()
    ensures ScanAsWritten(ClaimPositions(NoClaims(), [8]), 0) == None
  {
    var claimed := ClaimPositions(NoClaims(), [8]);
    ClaimPositionsAt(NoClaims(), [8], 8);
    ScanAsWrittenOverruns(claimed, 0);
  }

  // ---------------------------------------------------------------------
  // Lists, unions and claims on a given line

  /** A list that holds x, holds nothing else and repeats nothing is [x]. */
  lemma OnlyMember(s: seq<LineCluster>, x: LineCluster)
    requires Distinct(s) && x in s
    requires forall y :: y in s ==> y == x
    ensures s == [x]
  {
    forall i | 0 <= i < |s|
      ensures s[i] == x
    {
      assert s[i] in s;
    }
    if |s| > 1 {
      DistinctHead(s);
    }
  }

  lemma DistinctHead(s: seq<LineCluster>)
    requires Distinct(s) && |s| > 1
    ensures s[0] != s[1]
  {
  }

  /** The union of one, two or three positions. */
  lemma UnionOne(cells: seq<Bits>, p: int)
    requires |cells| == 9 && 0 <= p < 9
    ensures UnionAt(cells, [p]) == cells[p]
  {
    assert [p][..0] == [];
  }

  lemma UnionTwo(cells: seq<Bits>, p: int, q: int)
    requires |cells| == 9 && 0 <= p < 9 && 0 <= q < 9
    ensures UnionAt(cells, [p, q]) == cells[p] | cells[q]
  {
    assert [p, q][..1] == [p];
    UnionOne(cells, p);
  }

  lemma UnionThree(cells: seq<Bits>, p: int, q: int, r: int)
    requires |cells| == 9 && 0 <= p < 9 && 0 <= q < 9 && 0 <= r < 9
    ensures UnionAt(cells, [p, q, r]) == cells[p] | cells[q] | cells[r]
  {
    assert [p, q, r][..2] == [p, q];
    UnionTwo(cells, p, q);
  }

  /** Claiming a list of one cluster claims its positions. */
  lemma ClaimSingle(claimed: seq<bool>, x: LineCluster)
    requires |claimed| == 9 && InLine(x.positions)
    ensures AllInLine([x]) && ClaimClusters(claimed, [x]) == ClaimPositions(claimed, x.positions)
  {
    assert [x][..0] == [];
  }

  /** Claiming one, two or three positions. */
  lemma ClaimOne(claimed: seq<bool>, p: int)
    requires |claimed| == 9 && 0 <= p < 9
    ensures ClaimPositions(claimed, [p]) == claimed[p := true]
  {
    assert [p][..0] == [];
  }

  lemma ClaimTwo(claimed: seq<bool>, p: int, q: int)
    requires |claimed| == 9 && 0 <= p < 9 && 0 <= q < 9
    ensures ClaimPositions(claimed, [p, q]) == claimed[p := true][q := true]
  {
    assert [p, q][..1] == [p];
    ClaimOne(claimed, p);
  }

  lemma ClaimThree(claimed: seq<bool>, p: int, q: int, r: int)
    requires |claimed| == 9 && 0 <= p < 9 && 0 <= q < 9 && 0 <= r < 9
    ensures ClaimPositions(claimed, [p, q, r]) == claimed[p := true][q := true][r := true]
  {
    assert [p, q, r][..2] == [p, q];
    ClaimTwo(claimed, p, q);
  }

  /** A search step that finds the one cluster x: the result is x followed by what the
      next size finds once x is claimed. */
  lemma FindFromOne(cells: seq<Bits>, k: int, claimed: seq<bool>, num: int, x: LineCluster)
      returns (claimed': seq<bool>, num': int)
    requires |cells| == 9 && |claimed| == 9 && 1 <= k <= 3 && k < 9 - num && CountTrue(claimed) <= num
    requires SizeFound(cells, k, claimed, num) == [x] && InLine(x.positions)
    ensures AllInLine([x]) && claimed' == ClaimClusters(claimed, [x]) && num' == num + |x.positions|
    ensures |claimed'| == 9 && CountTrue(claimed') <= num'
    ensures FindFrom(cells, k, claimed, num) == [x] + FindFrom(cells, k + 1, claimed', num')
  {
    var found;
    found, claimed', num' := FindFromStep(cells, k, claimed, num);
    assert found == [x];
    WeightOne(x);
  }

  /** Concatenations of short lists, stated on variables so that the solver does not
      compare literal lists element by element. */
  lemma PrependOne(x: LineCluster, y: LineCluster)
    ensures [x] + [y] == [x, y]
  {
  }

  lemma PrependTwo(x: LineCluster, y: LineCluster, z: LineCluster)
    ensures [x] + [y, z] == [x, y, z]
  {
  }

  lemma WeightOne(x: LineCluster)
    ensures Weight([x]) == |x.positions|
  {
    assert [x][..0] == [];
  }

  // ---------------------------------------------------------------------
  // TestFindLineClusters3

  /** FindLineClusters finds exactly one cluster on that line, the single in its last
      cell (tests.c:244-246). */
  lemma LineThreeFound()
    ensures Clusters(LineThree()) == [LineCluster(1, 16, [8])]
    ensures |Clusters(LineThree())| == 1
  {
    var cells := LineThree();
    var x := LineCluster(1, 16, [8]);
    LineThreeClusters();
    ClustersValid(cells);
    var singles, claimed, num := FindFromStep(cells, 1, NoClaims(), 0);
    LineThreeSizeOne();
    assert singles == [x];
    ClaimSingle(NoClaims(), x);
    ClaimOne(NoClaims(), 8);
    WeightOne(x);
    LineThreeWide(2, claimed, num);
    var pairs, claimed', num' := FindFromStep(cells, 2, claimed, num);
    assert pairs == [];
    assert claimed' == claimed && num' == num;
    LineThreeWide(3, claimed', num');
    var triples, claimed'', num'' := FindFromStep(cells, 3, claimed', num');
    FindFromStop(cells, 4, claimed'', num'');
  }

  /** With nothing claimed, the size-1 search finds the single at position 8 alone. */
  lemma LineThreeSizeOne()
    ensures SizeFound(LineThree(), 1, NoClaims(), 0) == [LineCluster(1, 16, [8])]
  {
    var cells := LineThree();
    var x := LineCluster(1, 16, [8]);
    var found := SizeFound(cells, 1, NoClaims(), 0);
    SizeFoundDistinct(cells, 1, NoClaims(), 0);
    SizeFoundSound(cells, 1, NoClaims(), 0);
    forall y | y in found
      ensures y == x
    {
      LineThreeOnlySingle(y);
    }
    PopExpand(16);
    UnionOne(cells, 8);
    SizeFoundComplete(cells, 1, NoClaims(), 0, [8]);
    OnlyMember(found, x);
  }

  /** After the single, the searches of sizes 2 and 3 find nothing: every other cell
      allows all nine digits. */
  lemma LineThreeWide(k: int, claimed: seq<bool>, num: int)
    requires 2 <= k <= 3 && claimed == NoClaims()[8 := true] && num == 1
    ensures CountTrue(claimed) <= num && k < 9 - num
    ensures SizeFound(LineThree(), k, claimed, num) == []
  {
    var cells := LineThree();
    CountTrueSet(NoClaims(), 8);
    var found := SizeFound(cells, k, claimed, num);
    SizeFoundSound(cells, k, claimed, num);
    if found != [] {
      assert found[0] in found;
      LineThreeOnlySingle(found[0]);
    }
  }

  // ---------------------------------------------------------------------
  // TestFindLineClusters and TestFilterCellsByClusters

  /** The line of TestFindLineClusters (tests.c:157-172): a triple on positions 0, 2
      and 4 (digits 1-3), a pair on 1 and 8 (digits 4 and 6), the single 7 at position
      7, and blank cells elsewhere. */
  function LineOne(): (cells: seq<Bits>)
    ensures |cells| == 9
  {
    [3, 40, 6, AllBits, 5, AllBits, AllBits, 64, 40]
  }

  /** The clusters the test expects, in the order they are found (tests.c:174-205). */
  function LineOneClusters(): seq<LineCluster>
  {
    [LineCluster(1, 64, [7]), LineCluster(2, 40, [1, 8]), LineCluster(3, 7, [0, 2, 4])]
  }

  lemma LineOnePops()
    ensures Pop(3) == 2 && Pop(40) == 2 && Pop(6) == 2 && Pop(5) == 2 && Pop(64) == 1
    ensures Pop(AllBits) == 9 && Pop(7) == 3 && Pop(43) == 4 && Pop(45) == 4 && Pop(46) == 4
  {
    PopExpand(3); PopExpand(40); PopExpand(6); PopExpand(5); PopExpand(64);
    PopExpand(AllBits); PopExpand(7); PopExpand(43); PopExpand(45); PopExpand(46);
  }

  /** The only naked single of the line is the 7 at position 7. */
  lemma LineOneSingleOnly(y: LineCluster)
    requires ValidCluster(LineOne(), y) && y.size == 1
    ensures y == LineCluster(1, 64, [7])
  {
    var cells := LineOne();
    LineOnePops();
    var p := y.positions[0];
    assert y.positions == [p];
    UnionOne(cells, p);
  }

  /** Away from position 7 the only naked pair is the 4 and 6 on positions 1 and 8:
      the blank cells have too many candidates, and every other pair of cells spans
      three or four digits. */
  lemma LineOnePairOnly(y: LineCluster)
    requires ValidCluster(LineOne(), y) && y.size == 2 && 7 !in y.positions
    ensures y == LineCluster(2, 40, [1, 8])
  {
    var cells := LineOne();
    LineOnePops();
    var p, q := y.positions[0], y.positions[1];
    assert y.positions == [p, q];
    ClusterMembersSmall(cells, y, 0);
    ClusterMembersSmall(cells, y, 1);
    UnionTwo(cells, p, q);
  }

  /** Away from positions 1, 7 and 8 the only naked triple is the one on 0, 2 and 4. */
  lemma LineOneTripleOnly(y: LineCluster)
    requires ValidCluster(LineOne(), y) && y.size == 3
    requires 1 !in y.positions && 7 !in y.positions && 8 !in y.positions
    ensures y == LineCluster(3, 7, [0, 2, 4])
  {
    var cells := LineOne();
    LineOnePops();
    var p, q, r := y.positions[0], y.positions[1], y.positions[2];
    assert y.positions == [p, q, r];
    ClusterMembersSmall(cells, y, 0);
    ClusterMembersSmall(cells, y, 1);
    ClusterMembersSmall(cells, y, 2);
    UnionThree(cells, p, q, r);
  }

  /** With nothing claimed, the size-1 search finds the single alone. */
  lemma LineOneSizeOne()
    ensures SizeFound(LineOne(), 1, NoClaims(), 0) == [LineCluster(1, 64, [7])]
  {
    LineOneSizeOneSound();
    LineOneSizeOneComplete();
    SizeFoundDistinct(LineOne(), 1, NoClaims(), 0);
    OnlyMember(SizeFound(LineOne(), 1, NoClaims(), 0), LineCluster(1, 64, [7]));
  }

  lemma LineOneSizeOneSound()
    ensures forall y :: y in SizeFound(LineOne(), 1, NoClaims(), 0) ==> y == LineCluster(1, 64, [7])
  {
    var found := SizeFound(LineOne(), 1, NoClaims(), 0);
    SizeFoundSound(LineOne(), 1, NoClaims(), 0);
    forall y | y in found
      ensures y == LineCluster(1, 64, [7])
    {
      LineOneSingleOnly(y);
    }
  }

  lemma LineOneSizeOneComplete()
    ensures LineCluster(1, 64, [7]) in SizeFound(LineOne(), 1, NoClaims(), 0)
  {
    PopExpand(64);
    UnionOne(LineOne(), 7);
    SizeFoundComplete(LineOne(), 1, NoClaims(), 0, [7]);
  }

  /** Once position 7 is claimed, the size-2 search finds the pair alone. */
  lemma LineOneSizeTwo(claimed: seq<bool>)
    requires claimed == NoClaims()[7 := true]
    ensures CountTrue(claimed) == 1
    ensures SizeFound(LineOne(), 2, claimed, 1) == [LineCluster(2, 40, [1, 8])]
  {
    LineOneSizeTwoSound(claimed);
    LineOneSizeTwoComplete(claimed);
    SizeFoundDistinct(LineOne(), 2, claimed, 1);
    OnlyMember(SizeFound(LineOne(), 2, claimed, 1), LineCluster(2, 40, [1, 8]));
  }

  lemma LineOneSizeTwoSound(claimed: seq<bool>)
    requires claimed == NoClaims()[7 := true]
    ensures CountTrue(claimed) == 1
    ensures forall y :: y in SizeFound(LineOne(), 2, claimed, 1) ==> y == LineCluster(2, 40, [1, 8])
  {
    CountTrueSet(NoClaims(), 7);
    SizeFoundSound(LineOne(), 2, claimed, 1);
    forall y | y in SizeFound(LineOne(), 2, claimed, 1)
      ensures y == LineCluster(2, 40, [1, 8])
    {
      LineOnePairOnly(y);
    }
  }

  lemma LineOneSizeTwoComplete(claimed: seq<bool>)
    requires claimed == NoClaims()[7 := true]
    ensures CountTrue(claimed) == 1
    ensures LineCluster(2, 40, [1, 8]) in SizeFound(LineOne(), 2, claimed, 1)
  {
    CountTrueSet(NoClaims(), 7);
    var positions := [1, 8];
    assert !claimed[1] && !claimed[8];
    assert Increasing(positions) && InLine(positions);
    UnionTwo(LineOne(), 1, 8);
    assert UnionAt(LineOne(), positions) == 40;
    PopExpand(40);
    SizeFoundComplete(LineOne(), 2, claimed, 1, positions);
  }

  /** Once positions 7, 1 and 8 are claimed, the size-3 search finds the triple alone. */
  lemma LineOneSizeThree(claimed: seq<bool>)
    requires claimed == NoClaims()[7 := true][1 := true][8 := true]
    ensures CountTrue(claimed) == 3
    ensures SizeFound(LineOne(), 3, claimed, 3) == [LineCluster(3, 7, [0, 2, 4])]
  {
    LineOneSizeThreeSound(claimed);
    LineOneSizeThreeComplete(claimed);
    SizeFoundDistinct(LineOne(), 3, claimed, 3);
    OnlyMember(SizeFound(LineOne(), 3, claimed, 3), LineCluster(3, 7, [0, 2, 4]));
  }

  lemma LineOneClaimedThree()
    ensures CountTrue(NoClaims()[7 := true][1 := true][8 := true]) == 3
  {
    CountTrueSet(NoClaims(), 7);
    CountTrueSet(NoClaims()[7 := true], 1);
    CountTrueSet(NoClaims()[7 := true][1 := true], 8);
  }

  lemma LineOneSizeThreeSound(claimed: seq<bool>)
    requires claimed == NoClaims()[7 := true][1 := true][8 := true]
    ensures CountTrue(claimed) == 3
    ensures forall y :: y in SizeFound(LineOne(), 3, claimed, 3) ==> y == LineCluster(3, 7, [0, 2, 4])
  {
    LineOneClaimedThree();
    SizeFoundSound(LineOne(), 3, claimed, 3);
    forall y | y in SizeFound(LineOne(), 3, claimed, 3)
      ensures y == LineCluster(3, 7, [0, 2, 4])
    {
      LineOneTripleOnly(y);
    }
  }

  lemma LineOneSizeThreeComplete(claimed: seq<bool>)
    requires claimed == NoClaims()[7 := true][1 := true][8 := true]
    ensures CountTrue(claimed) == 3
    ensures LineCluster(3, 7, [0, 2, 4]) in SizeFound(LineOne(), 3, claimed, 3)
  {
    LineOneClaimedThree();
    var positions := [0, 2, 4];
    assert !claimed[0] && !claimed[2] && !claimed[4];
    assert Increasing(positions) && InLine(positions);
    UnionThree(LineOne(), 0, 2, 4);
    assert UnionAt(LineOne(), positions) == 7;
    PopExpand(7);
    SizeFoundComplete(LineOne(), 3, claimed, 3, positions);
  }

  /** The search from size 3 on, once the single and the pair are claimed. */
  lemma LineOneFromThree(claimed: seq<bool>)
    requires claimed == NoClaims()[7 := true][1 := true][8 := true]
    ensures CountTrue(claimed) == 3
    ensures FindFrom(LineOne(), 3, claimed, 3) == [LineCluster(3, 7, [0, 2, 4])]
  {
    LineOneSizeThree(claimed);
    var found, claimed', num' := FindFromStep(LineOne(), 3, claimed, 3);
    assert found == [LineCluster(3, 7, [0, 2, 4])];
    FindFromStop(LineOne(), 4, claimed', num');
  }

  /** The search from size 2 on, once the single is claimed. */
  lemma LineOneFromTwo(claimed: seq<bool>)
    requires claimed == NoClaims()[7 := true]
    ensures CountTrue(claimed) == 1
    ensures FindFrom(LineOne(), 2, claimed, 1) == [LineCluster(2, 40, [1, 8]), LineCluster(3, 7, [0, 2, 4])]
  {
    var x := LineCluster(2, 40, [1, 8]);
    LineOneSizeTwo(claimed);
    ClaimSingle(claimed, x);
    ClaimTwo(claimed, 1, 8);
    var claimed', num' := FindFromOne(LineOne(), 2, claimed, 1, x);
    assert num' == 3;
    LineOneFromThree(claimed');
    PrependOne(x, LineCluster(3, 7, [0, 2, 4]));
  }

  /** FindLineClusters finds the single, the pair and the triple, in that order
      (tests.c:174-205). */
  lemma LineOneFound()
    ensures Clusters(LineOne()) == LineOneClusters()
  {
    var cells := LineOne();
    var x := LineCluster(1, 64, [7]);
    LineOneSizeOne();
    ClaimSingle(NoClaims(), x);
    ClaimOne(NoClaims(), 7);
    var claimed, num := FindFromOne(cells, 1, NoClaims(), 0, x);
    assert num == 1;
    LineOneFromTwo(claimed);
    PrependTwo(x, LineCluster(2, 40, [1, 8]), LineCluster(3, 7, [0, 2, 4]));
  }

  /** The digits each position loses to the clusters of the line. */
  lemma LineOneExcluded(p: int)
    requires 0 <= p < 9
    ensures Excluded(LineOneClusters(), p)
      == if p == 7 then 47 else if p == 1 || p == 8 then 71 else if p == 0 || p == 2 || p == 4 then 104 else 111
  {
    var clusters := LineOneClusters();
    assert clusters[..2] == [LineCluster(1, 64, [7]), LineCluster(2, 40, [1, 8])];
    assert clusters[..2][..1] == [LineCluster(1, 64, [7])];
    assert clusters[..2][..1][..0] == [];
    ExcludedLast(clusters, p);
    ExcludedLast(clusters[..2], p);
    ExcludedLast(clusters[..2][..1], p);
  }

  /** FilterCellsByClusters with those clusters turns the blank cells into {5, 8, 9}
      and leaves the cluster cells as they were (tests.c:272-313). */
  lemma LineOneFiltered()
    ensures Filtered(LineOne(), LineOneClusters()) == [3, 40, 6, 400, 5, 400, 400, 64, 40]
  {
    var cells := LineOne();
    forall p | 0 <= p < 9
      ensures Filtered(cells, LineOneClusters())[p] == [3, 40, 6, 400, 5, 400, 400, 64, 40][p]
    {
      FilteredAt(cells, LineOneClusters(), p);
      LineOneExcluded(p);
    }
  }

  // ---------------------------------------------------------------------
  // TestFindLineClusters2

  /** The line of TestFindLineClusters2 (tests.c:219-224): eight solved cells and one
      cell holding digits 5 and 8. */
  function LineTwo(): (cells: seq<Bits>)
    ensures |cells| == 9
  {
    [32, 2, 8, 4, 256, 144, 1, 64, 16]
  }

  /** The naked singles of that line, in position order. */
  function LineTwoSingles(): seq<LineCluster>
  {
    [LineCluster(1, 32, [0]), LineCluster(1, 2, [1]), LineCluster(1, 8, [2]), LineCluster(1, 4, [3]),
     LineCluster(1, 256, [4]), LineCluster(1, 1, [6]), LineCluster(1, 64, [7]), LineCluster(1, 16, [8])]
  }

  /** The naked singles from position lo on, in position order. */
  function SinglesFrom(cells: seq<Bits>, lo: nat): seq<LineCluster>
    requires |cells| == 9
    decreases 9 - lo
  {
    if lo >= 9 then []
    else (if Pop(cells[lo]) == 1 then [LineCluster(1, cells[lo], [lo])] else []) + SinglesFrom(cells, lo + 1)
  }

  /** With nothing claimed, the size-1 search lists the naked singles in position order. */
  lemma {:induction false} SearchSingles(cells: seq<Bits>, lo: nat)
    requires |cells| == 9 && lo <= 9
    ensures Search(cells, Iota(0, 9), 9, 1, [], lo) == SinglesFrom(cells, lo)
    decreases 9 - lo
  {
    if lo < 9 {
      assert Iota(0, 9)[lo] == lo;
      assert [] + [lo] == [lo];
      UnionOne(cells, lo);
      SearchSingles(cells, lo + 1);
    }
  }

  lemma LineTwoPops()
    ensures Pop(32) == 1 && Pop(2) == 1 && Pop(8) == 1 && Pop(4) == 1 && Pop(256) == 1
    ensures Pop(144) == 2 && Pop(1) == 1 && Pop(64) == 1 && Pop(16) == 1
  {
    PopExpand(32); PopExpand(2); PopExpand(8); PopExpand(4); PopExpand(256);
    PopExpand(144); PopExpand(1); PopExpand(64); PopExpand(16);
  }

  lemma LineTwoSizeOne()
    ensures SinglesFrom(LineTwo(), 0) == LineTwoSingles()
  {
    var c := LineTwo();
    LineTwoPops();
    assert SinglesFrom(c, 9) == [];
    assert SinglesFrom(c, 8) == [LineCluster(1, 16, [8])] + SinglesFrom(c, 9);
    assert SinglesFrom(c, 7) == [LineCluster(1, 64, [7])] + SinglesFrom(c, 8);
    assert SinglesFrom(c, 6) == [LineCluster(1, 1, [6])] + SinglesFrom(c, 7);
    assert SinglesFrom(c, 5) == SinglesFrom(c, 6);
    assert SinglesFrom(c, 4) == [LineCluster(1, 256, [4])] + SinglesFrom(c, 5);
    assert SinglesFrom(c, 3) == [LineCluster(1, 4, [3])] + SinglesFrom(c, 4);
    assert SinglesFrom(c, 2) == [LineCluster(1, 8, [2])] + SinglesFrom(c, 3);
    assert SinglesFrom(c, 1) == [LineCluster(1, 2, [1])] + SinglesFrom(c, 2);
    assert SinglesFrom(c, 0) == [LineCluster(1, 32, [0])] + SinglesFrom(c, 1);
  }

  /** A list of size-1 clusters claims one position per cluster. */
  lemma {:induction false} WeightSingles(found: seq<LineCluster>)
    requires forall j :: 0 <= j < |found| ==> |found[j].positions| == 1
    ensures Weight(found) == |found|
    decreases |found|
  {
    if found != [] {
      WeightSingles(found[..|found| - 1]);
    }
  }

  lemma LineTwoWeight()
    ensures Weight(LineTwoSingles()) == 8
  {
    WeightSingles(LineTwoSingles());
  }

  /** FindLineClusters on that line returns its eight singles and nothing else
      (tests.c:226-227): after claiming them only one position is left, too few for a
      size-2 cluster. */
  lemma LineTwoClusters()
    ensures Clusters(LineTwo()) == LineTwoSingles()
    ensures |Clusters(LineTwo())| == 8
  {
    var cells := LineTwo();
    UnclaimedNoClaims();
    SearchSingles(cells, 0);
    LineTwoSizeOne();
    var found, claimed, num := FindFromStep(cells, 1, NoClaims(), 0);
    assert found == LineTwoSingles();
    LineTwoWeight();
    FindFromStop(cells, 2, claimed, num);
  }
}
