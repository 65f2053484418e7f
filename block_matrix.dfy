/** Partition bookkeeping of a block-structured sparse matrix: the equations
    0..n-1 are split into consecutive partitions whose boundaries are listed
    in `part`, and the matrix keeps one block per pair of partitions. */
module BlockMatrix {

  /** One block: its row and column range and (not modelled) its storage. */
  datatype Block = Block(startRow: int, endRow: int, startCol: int, endCol: int)

  /** Partition boundaries never decrease. */
  predicate Ascending(part: seq<int>)
  {
    forall a, b :: 0 <= a <= b < |part| ==> part[a] <= part[b]
  }

  /** The number of equations of partitions 0..k-1 added up. */
  function SumEquations(part: seq<int>, k: nat): int
    requires k < |part|
  {
    if k == 0 then 0 else SumEquations(part, k - 1) + (part[k] - part[k - 1])
  }

  datatype BlockMatrix = BlockMatrix(part: seq<int>, blocks: seq<Block>)
  {
    /** The number of blocks. */
    function Blocks(): (n: nat)
      ensures n == |blocks|
    {
      |blocks|
    }

    /** The number of partitions: one fewer than the number of boundaries. */
    function Partitions(): (n: int)
      ensures n + 1 == |part|
    {
      |part| - 1
    }

    /** The first equation of partition i. */
    function StartEquationIndex(i: nat): (n: int)
      requires i < |part|
      ensures n == part[i]
    {
      part[i]
    }

    /** The number of equations of partition i: the distance from its first
        equation to the first equation of the next partition. */
    function PartitionEquations(i: nat): (n: int)
      requires i < Partitions()
      ensures StartEquationIndex(i) + n == StartEquationIndex(i + 1)
    {
      part[i + 1] - part[i]
    }

    /** The partition that contains equation i, or -1 when no partition does. */
    function FindPartition(i: int): (p: int)
      ensures p == -1 || 0 <= p < Partitions()
      ensures p >= 0 ==> StartEquationIndex(p) <= i < StartEquationIndex(p + 1)
      ensures p == -1 <==> forall q :: 0 <= q < Partitions() ==> !(part[q] <= i < part[q + 1])
    {
      SearchFrom(i, 0)
    }

    /** Linear search for the partition of equation i among partitions k.. */
    function SearchFrom(i: int, k: nat): (p: int)
      requires k <= |part|
      ensures (p == -1 || 0 <= p < Partitions()) && (p >= 0 ==> k <= p && part[p] <= i < part[p + 1])
      ensures p == -1 <==> forall q :: k <= q < Partitions() ==> !(part[q] <= i < part[q + 1])
      decreases |part| - k
    {
      if k + 1 >= |part| then -1
      else if part[k] <= i < part[k + 1] then k
      else SearchFrom(i, k + 1)
    }

    /** The partition sizes add up to the whole equation range. */
    lemma {:induction false} PartitionEquationsSum(k: nat)
      requires k < |part|
      ensures SumEquations(part, k) == part[k] - part[0]
      ensures forall i :: 0 <= i < k ==> PartitionEquations(i) == part[i + 1] - part[i]
    {
      if k > 0 {
        PartitionEquationsSum(k - 1);
      }
    }

    /** With ascending boundaries partitions do not overlap, so the
        partition found is the only one holding equation i, and no
        partition has a negative size. */
    lemma FindPartitionUnique(i: int, q: nat)
      requires Ascending(part)
      requires q < Partitions() && part[q] <= i < part[q + 1]
      ensures FindPartition(i) == q
      ensures PartitionEquations(q) > 0
    {
    }
  }
}
