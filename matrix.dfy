/**
 * Integer matrices (Eigen::MatrixXi) as sequences of rows, and the block-diagonal
 * placement that both the linear Theory and the gluing graph start from.
 */
module Matrices {

  type Matrix = seq<seq<int>>

  predicate IsSquare(m: Matrix, n: nat)
  {
    |m| == n && forall i :: 0 <= i < n ==> |m[i]| == n
  }

  predicate Square(m: Matrix) { IsSquare(m, |m|) }

  predicate Symmetric(m: Matrix)
    requires Square(m)
  {
    forall i, j :: 0 <= i < |m| && 0 <= j < |m| ==> m[i][j] == m[j][i]
  }

  predicate AllSquare(blocks: seq<Matrix>)
  {
    forall k :: 0 <= k < |blocks| ==> Square(blocks[k])
  }

  predicate AllSymmetric(blocks: seq<Matrix>)
    requires AllSquare(blocks)
  {
    forall k :: 0 <= k < |blocks| ==> Symmetric(blocks[k])
  }

  function Zero(n: nat): (z: Matrix)
    ensures IsSquare(z, n)
  {
    seq(n, i => seq(n, j => 0))
  }

  /** Row/column at which block k starts: the sum of the sizes of the blocks before it. */
  function Offset(blocks: seq<Matrix>, k: nat): nat
    requires k <= |blocks|
  {
    if k == 0 then 0 else Offset(blocks, k - 1) + |blocks[k - 1]|
  }

  /** Dimension of the block-diagonal sum: the sum of all block sizes. */
  function Dim(blocks: seq<Matrix>): nat
  {
    Offset(blocks, |blocks|)
  }

  lemma {:induction false} OffsetMonotone(blocks: seq<Matrix>, j: nat, k: nat)
    requires j <= k <= |blocks|
    ensures Offset(blocks, j) <= Offset(blocks, k)
    decreases k - j
  {
    if j < k {
      OffsetMonotone(blocks, j, k - 1);
    }
  }

  /** The block, among the first k, whose rows contain row i. */
  function BlockIndex(blocks: seq<Matrix>, i: nat, k: nat): (b: nat)
    requires k <= |blocks| && i < Offset(blocks, k)
    ensures b < k && Offset(blocks, b) <= i < Offset(blocks, b + 1)
  {
    if Offset(blocks, k - 1) <= i then k - 1 else BlockIndex(blocks, i, k - 1)
  }

  /**
   * Entry (i, j) of the block-diagonal sum of the first k blocks: the entry of the block
   * that holds both row i and column j, and 0 when no block holds both.
   */
  function DiagEntry(blocks: seq<Matrix>, k: nat, i: nat, j: nat): int
    requires AllSquare(blocks) && k <= |blocks|
  {
    if i < Offset(blocks, k) && j < Offset(blocks, k)
       && BlockIndex(blocks, i, k) == BlockIndex(blocks, j, k)
    then
      var b := BlockIndex(blocks, i, k);
      blocks[b][i - Offset(blocks, b)][j - Offset(blocks, b)]
    else 0
  }

  /** An n-by-n matrix holding the first k blocks on its diagonal. */
  function DiagUpTo(blocks: seq<Matrix>, k: nat, n: nat): (m: Matrix)
    requires AllSquare(blocks) && k <= |blocks|
    ensures IsSquare(m, n)
  {
    seq(n, (i: int) requires 0 <= i < n =>
      seq(n, (j: int) requires 0 <= j < n => DiagEntry(blocks, k, i, j)))
  }

  /** The block-diagonal sum of all blocks, in order. */
  function BlockDiag(blocks: seq<Matrix>): (m: Matrix)
    requires AllSquare(blocks)
    ensures IsSquare(m, Dim(blocks))
  {
    DiagUpTo(blocks, |blocks|, Dim(blocks))
  }

  /** Eigen's out.block(off, off, r, c) = m: overwrite the square at (off, off) with m. */
  function PlaceBlock(out: Matrix, off: nat, m: Matrix): (r: Matrix)
    requires Square(m) && Square(out) && off + |m| <= |out|
    ensures IsSquare(r, |out|)
  {
    seq(|out|, (i: int) requires 0 <= i < |out| =>
      seq(|out|, (j: int) requires 0 <= j < |out| =>
        if off <= i < off + |m| && off <= j < off + |m| then m[i - off][j - off] else out[i][j]))
  }

  lemma {:induction false} PlaceEmpty(out: Matrix, off: nat, m: Matrix)
    requires Square(out) && off <= |out| && m == []
    ensures PlaceBlock(out, off, m) == out
  {
    var r := PlaceBlock(out, off, m);
    forall i | 0 <= i < |out| ensures r[i] == out[i] {
    }
  }

  lemma {:induction false} DiagStart(blocks: seq<Matrix>, n: nat)
    requires AllSquare(blocks)
    ensures DiagUpTo(blocks, 0, n) == Zero(n)
  {
    var a, z := DiagUpTo(blocks, 0, n), Zero(n);
    forall i | 0 <= i < n ensures a[i] == z[i] {
    }
  }

  /** Placing block k at its offset turns the first-k diagonal into the first-(k+1) diagonal. */
  lemma {:induction false} DiagStep(blocks: seq<Matrix>, k: nat, n: nat)
    requires AllSquare(blocks) && k < |blocks| && Offset(blocks, k + 1) <= n
    ensures PlaceBlock(DiagUpTo(blocks, k, n), Offset(blocks, k), blocks[k]) == DiagUpTo(blocks, k + 1, n)
  {
    var a := PlaceBlock(DiagUpTo(blocks, k, n), Offset(blocks, k), blocks[k]);
    var b := DiagUpTo(blocks, k + 1, n);
    forall i | 0 <= i < n ensures a[i] == b[i] {
      forall j | 0 <= j < n ensures a[i][j] == b[i][j] {
        if i < Offset(blocks, k) {
          var bi := BlockIndex(blocks, i, k);
        }
        if j < Offset(blocks, k) {
          var bj := BlockIndex(blocks, j, k);
        }
      }
    }
  }

  /**
   * BlockDiag_ (Theory.h): zero blocks or total size 0 give the 0x0 matrix; otherwise each
   * non-empty block is copied onto the diagonal at a running offset.
   */
  method BlockDiagOf(blocks: seq<Matrix>) returns (out: Matrix)
    requires AllSquare(blocks)
    ensures out == BlockDiag(blocks)
  {
    if |blocks| == 0 {
      return [];
    }
    var total := 0;
    for k := 0 to |blocks|
      invariant total == Offset(blocks, k)
    {
      total := total + |blocks[k]|;
    }
    if total == 0 {
      return [];
    }
    out := Zero(total);
    DiagStart(blocks, total);
    var off := 0;
    for k := 0 to |blocks|
      invariant off == Offset(blocks, k)
      invariant out == DiagUpTo(blocks, k, total)
    {
      OffsetMonotone(blocks, k + 1, |blocks|);
      DiagStep(blocks, k, total);
      if |blocks[k]| == 0 {
        PlaceEmpty(out, off, blocks[k]);
        continue;
      }
      out := PlaceBlock(out, off, blocks[k]);
      off := off + |blocks[k]|;
    }
  }

  /** The row at which block k starts lies in block k whenever block k is not empty. */
  lemma {:induction false} BlockIndexOf(blocks: seq<Matrix>, k: nat, i: nat, m: nat)
    requires k < m <= |blocks| && i < |blocks[k]|
    ensures Offset(blocks, k) + i < Offset(blocks, m)
    ensures BlockIndex(blocks, Offset(blocks, k) + i, m) == k
    decreases m
  {
    OffsetMonotone(blocks, k + 1, m);
    if m > k + 1 {
      OffsetMonotone(blocks, k + 1, m - 1);
      BlockIndexOf(blocks, k, i, m - 1);
    }
  }

  /** Block k appears verbatim at (Offset(k), Offset(k)) of the block-diagonal sum. */
  lemma {:induction false} BlockDiagAt(blocks: seq<Matrix>, k: nat, i: nat, j: nat)
    requires AllSquare(blocks) && k < |blocks| && i < |blocks[k]| && j < |blocks[k]|
    ensures Offset(blocks, k) + i < Dim(blocks) && Offset(blocks, k) + j < Dim(blocks)
    ensures BlockDiag(blocks)[Offset(blocks, k) + i][Offset(blocks, k) + j] == blocks[k][i][j]
  {
    BlockIndexOf(blocks, k, i, |blocks|);
    BlockIndexOf(blocks, k, j, |blocks|);
  }

  /** Where no single block holds both row i and column j, the block-diagonal sum is 0. */
  lemma {:induction false} BlockDiagOffBlocks(blocks: seq<Matrix>, i: nat, j: nat)
    requires AllSquare(blocks) && i < Dim(blocks) && j < Dim(blocks)
    requires forall k :: 0 <= k < |blocks| ==>
      !(Offset(blocks, k) <= i < Offset(blocks, k + 1) && Offset(blocks, k) <= j < Offset(blocks, k + 1))
    ensures BlockDiag(blocks)[i][j] == 0
  {
    var bi := BlockIndex(blocks, i, |blocks|);
  }

  lemma {:induction false} BlockDiagSymmetric(blocks: seq<Matrix>)
    requires AllSquare(blocks) && AllSymmetric(blocks)
    ensures Symmetric(BlockDiag(blocks))
  {
    var m := BlockDiag(blocks);
    forall i, j | 0 <= i < |m| && 0 <= j < |m| ensures m[i][j] == m[j][i] {
      if BlockIndex(blocks, i, |blocks|) == BlockIndex(blocks, j, |blocks|) {
        var b := BlockIndex(blocks, i, |blocks|);
        assert Symmetric(blocks[b]);
      }
    }
  }
}
