/** FilterCellsByClusters (engine.c:242-256): the digits of each cluster are removed
    from every cell of the line outside that cluster. */
module Filter {
  import opened Cell
  import opened ClusterSearch

  /** Every position of every cluster is a position of the line, and a cluster holds
      `size` positions: what the filter reads of each cluster. */
  predicate WellFormed(clusters: seq<LineCluster>)
  {
    forall j :: 0 <= j < |clusters| ==> |clusters[j].positions| == clusters[j].size && InLine(clusters[j].positions)
  }

  /** What one cluster leaves of the candidates `c` of the cell at position p
      (engine.c:250-253): its digits are cleared unless p is one of its positions. */
  function ApplyAt(c: Bits, x: LineCluster, p: int): Bits
  {
    if p in x.positions then c else c & (AllBits ^ x.bitset)
  }

  /** One cluster applied to the line (engine.c:244-254). */
  function ApplyCluster(cells: seq<Bits>, x: LineCluster): (r: seq<Bits>)
    requires |cells| == 9
    ensures |r| == 9
  {
    seq(9, p requires 0 <= p < 9 => ApplyAt(cells[p], x, p))
  }

  /** The clusters applied one after the other, in order. */
  function Filtered(cells: seq<Bits>, clusters: seq<LineCluster>): (r: seq<Bits>)
    requires |cells| == 9
    ensures |r| == 9
  {
    if clusters == [] then cells
    else ApplyCluster(Filtered(cells, clusters[..|clusters| - 1]), clusters[|clusters| - 1])
  }

  /** The clusters applied one after the other to the candidates of the cell at p. */
  function FilteredCell(c: Bits, clusters: seq<LineCluster>, p: int): Bits
  {
    if clusters == [] then c
    else ApplyAt(FilteredCell(c, clusters[..|clusters| - 1], p), clusters[|clusters| - 1], p)
  }

  /** Reference definition: the digits of all clusters that do not hold position p. */
  function Excluded(clusters: seq<LineCluster>, p: int): Bits
  {
    if clusters == [] then 0
    else
      var x := clusters[|clusters| - 1];
      Excluded(clusters[..|clusters| - 1], p) | (if p in x.positions then 0 else x.bitset)
  }

  /** Each cell ends as it was with the digits of every cluster not holding it cleared. */
  lemma FilteredAt(cells: seq<Bits>, clusters: seq<LineCluster>, p: int)
    requires |cells| == 9 && 0 <= p < 9
    ensures Filtered(cells, clusters)[p] == cells[p] & !Excluded(clusters, p)
  {
    FilteredByCell(cells, clusters, p);
    FilteredCellExcluded(cells[p], clusters, p);
  }

  /** The line is filtered cell by cell. */
  lemma {:induction false} FilteredByCell(cells: seq<Bits>, clusters: seq<LineCluster>, p: int)
    requires |cells| == 9 && 0 <= p < 9
    ensures Filtered(cells, clusters)[p] == FilteredCell(cells[p], clusters, p)
  {
    if clusters != [] {
      FilteredByCell(cells, clusters[..|clusters| - 1], p);
    }
  }

  lemma {:induction false} FilteredCellExcluded(c: Bits, clusters: seq<LineCluster>, p: int)
    ensures FilteredCell(c, clusters, p) == c & !Excluded(clusters, p)
  {
    if clusters == [] {
      FilteredCellNone(c, clusters, p);
    } else {
      FilteredCellExcluded(c, clusters[..|clusters| - 1], p);
      FilteredCellStep(c, clusters, p);
    }
  }

  lemma FilteredCellNone(c: Bits, clusters: seq<LineCluster>, p: int)
    requires clusters == []
    ensures FilteredCell(c, clusters, p) == c & !Excluded(clusters, p)
  {
    assert c & !0 == c;
  }

  /** FilteredCellExcluded for the last cluster, given it for the ones before. */
  lemma FilteredCellStep(c: Bits, clusters: seq<LineCluster>, p: int)
    requires clusters != []
    requires FilteredCell(c, clusters[..|clusters| - 1], p) == c & !Excluded(clusters[..|clusters| - 1], p)
    ensures FilteredCell(c, clusters, p) == c & !Excluded(clusters, p)
  {
    var init, x := clusters[..|clusters| - 1], clusters[|clusters| - 1];
    FilteredCellLast(c, clusters, p);
    ExcludedLast(clusters, p);
    ApplyAtExcluded(FilteredCell(c, init, p), c, Excluded(init, p), x, p);
  }

  lemma FilteredCellLast(c: Bits, clusters: seq<LineCluster>, p: int)
    requires clusters != []
    ensures FilteredCell(c, clusters, p)
         == ApplyAt(FilteredCell(c, clusters[..|clusters| - 1], p), clusters[|clusters| - 1], p)
  {
  }

  lemma ExcludedLast(clusters: seq<LineCluster>, p: int)
    requires clusters != []
    ensures var x := clusters[|clusters| - 1];
      Excluded(clusters, p) == Excluded(clusters[..|clusters| - 1], p) | (if p in x.positions then 0 else x.bitset)
  {
  }

  /** Clearing one set of digits and then those of a cluster clears their union. */
  lemma ApplyAtExcluded(f: Bits, c: Bits, e: Bits, x: LineCluster, p: int)
    requires f == c & !e
    ensures ApplyAt(f, x, p) == c & !(e | (if p in x.positions then 0 else x.bitset))
  {
  }

  /** A cluster never alters its own cells. */
  lemma ApplyClusterKeepsMembers(cells: seq<Bits>, x: LineCluster, p: int)
    requires |cells| == 9 && 0 <= p < 9 && p in x.positions
    ensures ApplyCluster(cells, x)[p] == cells[p]
  {
  }

  /** Filtering never adds a digit to a cell. */
  lemma FilteredShrinks(cells: seq<Bits>, clusters: seq<LineCluster>, p: int)
    requires |cells| == 9 && 0 <= p < 9
    ensures Filtered(cells, clusters)[p] & cells[p] == Filtered(cells, clusters)[p]
  {
    FilteredAt(cells, clusters, p);
  }

  /** A cell that is not in a cluster keeps none of that cluster's digits. */
  lemma {:induction false} FilteredRemoves(cells: seq<Bits>, clusters: seq<LineCluster>, j: int, p: int)
    requires |cells| == 9 && 0 <= p < 9 && 0 <= j < |clusters| && p !in clusters[j].positions
    ensures Filtered(cells, clusters)[p] & clusters[j].bitset == 0
  {
    FilteredAt(cells, clusters, p);
    ExcludedHas(clusters, j, p);
  }

  lemma {:induction false} ExcludedHas(clusters: seq<LineCluster>, j: int, p: int)
    requires 0 <= j < |clusters| && p !in clusters[j].positions
    ensures Excluded(clusters, p) & clusters[j].bitset == clusters[j].bitset
  {
    if j < |clusters| - 1 {
      ExcludedHas(clusters[..|clusters| - 1], j, p);
    }
  }

  /** A cell that every cluster holds is left as it was. */
  lemma {:induction false} FilteredKeepsCommon(cells: seq<Bits>, clusters: seq<LineCluster>, p: int)
    requires |cells| == 9 && 0 <= p < 9
    requires forall j :: 0 <= j < |clusters| ==> p in clusters[j].positions
    ensures Filtered(cells, clusters)[p] == cells[p]
  {
    if clusters != [] {
      FilteredKeepsCommon(cells, clusters[..|clusters| - 1], p);
    }
  }

  /** FilterCellsByClusters (engine.c:242): filters `cells` in place by every cluster. */
  method FilterCellsByClusters(cells: array<Bits>, clusters: seq<LineCluster>)
    requires cells.Length == 9 && WellFormed(clusters)
    modifies cells
    ensures cells[..] == Filtered(old(cells[..]), clusters)
  {
    ghost var initial := cells[..];
    for clusterNum := 0 to |clusters|
      invariant cells[..] == Filtered(initial, clusters[..clusterNum])
    {
      var cluster := clusters[clusterNum];
      var isClusterPosition := new bool[9](_ => false);
      for clusterIndex := 0 to cluster.size
        modifies isClusterPosition
        invariant forall p :: 0 <= p < 9 ==> (isClusterPosition[p] <==> p in cluster.positions[..clusterIndex])
      {
        isClusterPosition[cluster.positions[clusterIndex]] := true;
      }
      assert cluster.positions[..cluster.size] == cluster.positions;
      ghost var before := cells[..];
      ApplyClusterInPlace(cells, isClusterPosition, cluster);
      FilteredSnoc(initial, clusters, clusterNum, before);
    }
    assert clusters[..|clusters|] == clusters;
  }

  lemma FilteredSnoc(cells: seq<Bits>, clusters: seq<LineCluster>, t: int, before: seq<Bits>)
    requires |cells| == 9 && 0 <= t < |clusters| && before == Filtered(cells, clusters[..t])
    ensures Filtered(cells, clusters[..t + 1]) == ApplyCluster(before, clusters[t])
  {
    assert clusters[..t + 1][..t] == clusters[..t];
  }

  /** engine.c:250-254: clears the cluster's digits from every cell it does not hold. */
  method ApplyClusterInPlace(cells: array<Bits>, isClusterPosition: array<bool>, cluster: LineCluster)
    requires cells.Length == 9 && isClusterPosition.Length == 9
    requires forall p :: 0 <= p < 9 ==> (isClusterPosition[p] <==> p in cluster.positions)
    modifies cells
    ensures cells[..] == ApplyCluster(old(cells[..]), cluster)
  {
    ghost var original := cells[..];
    var bitfilter := AllBits ^ cluster.bitset;
    for cellIndex := 0 to 9
      invariant forall p :: 0 <= p < cellIndex ==> cells[p] == ApplyAt(original[p], cluster, p)
      invariant forall p :: cellIndex <= p < 9 ==> cells[p] == original[p]
    {
      var filtered := ApplyOne(cells[cellIndex], isClusterPosition[cellIndex], bitfilter);
      ApplyOneAt(original[cellIndex], cluster, cellIndex, isClusterPosition[cellIndex], bitfilter);
      cells[cellIndex] := filtered;
    }
  }

  /** The body of the loop at engine.c:250-254 for one cell. */
  function ApplyOne(c: Bits, inCluster: bool, bitfilter: Bits): Bits
  {
    if inCluster then c else c & bitfilter
  }

  lemma ApplyOneAt(c: Bits, x: LineCluster, p: int, inCluster: bool, bitfilter: Bits)
    requires (inCluster <==> p in x.positions) && bitfilter == AllBits ^ x.bitset
    ensures ApplyOne(c, inCluster, bitfilter) == ApplyAt(c, x, p)
  {
  }
}
