/** Which blocks of an ext2 file are pointer blocks. The closed-form test of the recovery tool
    is compared with the recursive layout of a file on disk: twelve data blocks, then the
    single, double and triple indirect trees, each pointer block before its children. */
module IndirectBlocks {
  import opened Options
  import opened DivMod

  // -------------------------------------------------------------- the recursive layout

  function Repeat(n: nat, part: seq<bool>): (r: seq<bool>)
    ensures |r| == n * |part|
  {
    if n == 0 then [] else Repeat(n - 1, part) + part
  }

  function DataBlocks(n: nat): seq<bool> {
    seq(n, _ => false)
  }

  /** A pointer block and the `d` data blocks it points to. */
  function SingleTree(d: nat): seq<bool> { [true] + DataBlocks(d) }

  function DoubleTree(d: nat): seq<bool> { [true] + Repeat(d, SingleTree(d)) }

  function TripleTree(d: nat): seq<bool> { [true] + Repeat(d, DoubleTree(d)) }

  /** For every block of a file of maximal size, in disk order: is it a pointer block? */
  function Layout(d: nat): seq<bool> {
    DataBlocks(12) + SingleTree(d) + DoubleTree(d) + TripleTree(d)
  }

  // -------------------------------------------------------------- the closed-form test

  function DoubleRoot(d: nat): nat { 13 + d }

  function TripleRoot(d: nat): nat { DoubleRoot(d) + 1 + (d + 1) * d }

  /** The blocks of one double tree inside the triple tree. */
  function RowSize(d: nat): nat { 1 + d * (d + 1) }

  /** The last block the triple-tree test looks at: the root of the last double subtree. */
  function LastTested(d: nat): nat
    requires d >= 1
  {
    TripleRoot(d) + 1 + RowSize(d) * (d - 1)
  }

  /** The size the test asserts its argument to be below. */
  function MaxBlocks(d: nat): nat {
    (12 + d + d * d + d * d * d) + (1 + 1 + d + 1 + d + d * d)
  }

  /** The test; `None` is its failed assertion. */
  function BlockIsIndirect(d: nat, block: nat): Option<bool>
    requires d >= 1
  {
    if block >= MaxBlocks(d) then None
    else if block < 12 then Some(false)
    else if block == 12 then Some(true)
    else if block == DoubleRoot(d) then Some(true)
    else if DoubleRoot(d) < block <= DoubleRoot(d) + 1 + (d + 1) * (d - 1) then
      Some((block - (DoubleRoot(d) + 1)) % (d + 1) == 0)
    else if block == TripleRoot(d) then Some(true)
    else if TripleRoot(d) < block <= LastTested(d) then
      var blc := block - (TripleRoot(d) + 1);
      var row := blc / RowSize(d);
      var col := blc - row * RowSize(d);
      Some(col == 0 || col == 1 || (col - 1) % (d + 1) == 0)
    else Some(false)
  }

  // ------------------------------------------------------------------------ arithmetic

  lemma {:induction false} RepeatAt(n: nat, part: seq<bool>, k: nat)
    requires |part| > 0 && k < n * |part|
    ensures Repeat(n, part)[k] == part[k % |part|]
  {
    var m := |part|;
    if k < (n - 1) * m {
      RepeatAt(n - 1, part, k);
    } else {
      var r := k - (n - 1) * m;
      assert n * m == (n - 1) * m + m;
      ModOf(n - 1, m, r);
    }
  }

  lemma TreeSizes(d: nat)
    ensures |SingleTree(d)| == d + 1
    ensures |DoubleTree(d)| == RowSize(d)
    ensures |TripleTree(d)| == 1 + d * RowSize(d)
    ensures |Layout(d)| == TripleRoot(d) + 1 + d * RowSize(d)
  {
  }

  /** The asserted bound is the size of the whole layout. */
  lemma BoundIsLayoutSize(d: nat)
    ensures MaxBlocks(d) == |Layout(d)|
  {
    TreeSizes(d);
    Cubic(d, d * d);
  }

  lemma Cubic(d: nat, square: nat)
    requires square == d * d
    ensures RowSize(d) == 1 + square + d && (d + 1) * d == square + d
    ensures d * RowSize(d) == d + square * d + square
  {
    assert d * (d + 1) == square + d;
    Distribute(d, square);
  }

  lemma Distribute(d: nat, square: nat)
    ensures d * (1 + square + d) == d + square * d + d * d
  {
  }

  // ------------------------------------------------------------------ the two compared

  /** A double tree: its root, and every pointer block at a multiple of `d + 1` behind it. */
  lemma DoubleTreeAt(d: nat, k: nat)
    requires k < |DoubleTree(d)|
    ensures DoubleTree(d)[k] == (k == 0 || (k - 1) % (d + 1) == 0)
  {
    TreeSizes(d);
    if k > 0 {
      RepeatAt(d, SingleTree(d), k - 1);
    }
  }

  lemma TripleTreeAt(d: nat, k: nat)
    requires k < |TripleTree(d)|
    ensures k > 0 ==> (k - 1) % RowSize(d) < |DoubleTree(d)|
    ensures TripleTree(d)[k] == (k == 0 || DoubleTree(d)[(k - 1) % RowSize(d)])
  {
    TreeSizes(d);
    if k > 0 {
      RepeatAt(d, DoubleTree(d), k - 1);
    }
  }

  /** The pointer blocks the test misses: those of the single trees inside the last double
      subtree of the triple tree. */
  predicate Missed(d: nat, block: nat)
    requires d >= 1
  {
    block > LastTested(d) && (block - LastTested(d) - 1) % (d + 1) == 0
  }

  lemma BeforeDoubleTree(d: nat, block: nat)
    requires d >= 1 && block < DoubleRoot(d)
    ensures block < |Layout(d)| && BlockIsIndirect(d, block) == Some(Layout(d)[block])
  {
    TreeSizes(d);
    BoundIsLayoutSize(d);
  }

  lemma InDoubleTree(d: nat, block: nat)
    requires d >= 1 && DoubleRoot(d) <= block < TripleRoot(d)
    ensures block < |Layout(d)| && BlockIsIndirect(d, block) == Some(Layout(d)[block])
  {
    TreeSizes(d);
    BoundIsLayoutSize(d);
    var k := block - DoubleRoot(d);
    assert Layout(d)[block] == DoubleTree(d)[k];
    DoubleTreeAt(d, k);
    if k - 1 > (d + 1) * (d - 1) {
      var r := k - 1 - (d + 1) * (d - 1);
      assert (d + 1) * d == (d + 1) * (d - 1) + (d + 1);
      ModOf(d - 1, d + 1, r);
      assert (d - 1) * (d + 1) == (d + 1) * (d - 1);
    }
  }

  /** What the layout has at a block of the triple tree behind its root. */
  lemma LayoutInTripleTree(d: nat, blc: nat)
    requires d >= 1 && blc < d * RowSize(d)
    ensures var block, col := TripleRoot(d) + 1 + blc, blc % RowSize(d);
            block < |Layout(d)| && Layout(d)[block] == (col == 0 || (col - 1) % (d + 1) == 0)
  {
    TreeSizes(d);
    assert Layout(d)[TripleRoot(d) + (blc + 1)] == TripleTree(d)[blc + 1];
    TripleTreeAt(d, blc + 1);
    DoubleTreeAt(d, blc % RowSize(d));
  }

  /** What the test says there: it looks no further than the root of the last double subtree. */
  lemma TestInTripleTree(d: nat, blc: nat)
    requires d >= 1 && TripleRoot(d) + 1 + blc < MaxBlocks(d)
    ensures var col := blc % RowSize(d);
            BlockIsIndirect(d, TripleRoot(d) + 1 + blc)
            == Some(blc <= RowSize(d) * (d - 1) && (col == 0 || col == 1 || (col - 1) % (d + 1) == 0))
  {
    BehindDoubleTree(d);
    var size := RowSize(d);
    assert blc == (blc / size) * size + blc % size;
  }

  lemma BehindDoubleTree(d: nat)
    requires d >= 1
    ensures TripleRoot(d) > DoubleRoot(d) + 1 + (d + 1) * (d - 1)
  {
    assert (d + 1) * d == (d + 1) * (d - 1) + (d + 1);
  }

  /** Behind the last block the test looks at, the column counts from there. */
  lemma LastColumns(d: nat, blc: nat)
    requires d >= 1 && RowSize(d) * (d - 1) <= blc < d * RowSize(d)
    ensures blc % RowSize(d) == blc - RowSize(d) * (d - 1)
  {
    var size := RowSize(d);
    assert d * size == (d - 1) * size + size;
    assert size * (d - 1) == (d - 1) * size;
    ModOf(d - 1, size, blc - (d - 1) * size);
  }

  lemma MissedInTripleTree(d: nat, blc: nat)
    requires d >= 1
    ensures Missed(d, TripleRoot(d) + 1 + blc)
            <==> blc > RowSize(d) * (d - 1) && (blc - RowSize(d) * (d - 1) - 1) % (d + 1) == 0
  {
  }

  lemma RootOfTripleTree(d: nat)
    requires d >= 1
    ensures TripleRoot(d) < |Layout(d)| && Layout(d)[TripleRoot(d)] && !Missed(d, TripleRoot(d))
    ensures BlockIsIndirect(d, TripleRoot(d)) == Some(true)
  {
    TreeSizes(d);
    BoundIsLayoutSize(d);
    BehindDoubleTree(d);
    assert Layout(d)[TripleRoot(d)] == TripleTree(d)[0];
    assert RowSize(d) * (d - 1) >= 0;
  }

  /** A tested column agrees with the layout; of the others just the pointer columns do not. */
  lemma ColumnsAgree(blc: nat, reach: nat, col: nat, width: nat)
    requires width >= 2 && (blc >= reach ==> col == blc - reach)
    ensures ((blc <= reach && (col == 0 || col == 1 || (col - 1) % width == 0)) == (col == 0 || (col - 1) % width == 0))
            <==> !(blc > reach && (blc - reach - 1) % width == 0)
  {
  }

  lemma BehindTripleRoot(d: nat, blc: nat)
    requires d >= 1 && blc < d * RowSize(d)
    requires TripleRoot(d) + 1 + blc < MaxBlocks(d) && TripleRoot(d) + 1 + blc < |Layout(d)|
    ensures var block := TripleRoot(d) + 1 + blc;
            BlockIsIndirect(d, block) == Some(Layout(d)[block]) <==> !Missed(d, block)
  {
    var reach, col, block := RowSize(d) * (d - 1), blc % RowSize(d), TripleRoot(d) + 1 + blc;
    var tested, laid := BlockIsIndirect(d, block), Layout(d)[block];
    assert laid == (col == 0 || (col - 1) % (d + 1) == 0) by { LayoutInTripleTree(d, blc); }
    assert tested == Some(blc <= reach && (col == 0 || col == 1 || (col - 1) % (d + 1) == 0)) by {
      TestInTripleTree(d, blc);
    }
    assert Missed(d, block) <==> blc > reach && (blc - reach - 1) % (d + 1) == 0 by { MissedInTripleTree(d, blc); }
    assert blc >= reach ==> col == blc - reach by { if blc >= reach { LastColumns(d, blc); } }
    ColumnsAgree(blc, reach, col, d + 1);
  }

  lemma InTripleTree(d: nat, block: nat)
    requires d >= 1 && TripleRoot(d) <= block < |Layout(d)|
    ensures BlockIsIndirect(d, block).Some?
    ensures BlockIsIndirect(d, block) == Some(Layout(d)[block]) <==> !Missed(d, block)
  {
    TreeSizes(d);
    BoundIsLayoutSize(d);
    RootOfTripleTree(d);
    if block > TripleRoot(d) { BehindTripleRoot(d, block - TripleRoot(d) - 1); }
  }

  /** For every block of the layout the test agrees with the recursive layout, except exactly
      for the pointer blocks of single trees inside the last double subtree of the triple
      tree, which it takes for data. The assertion fails exactly beyond the layout. */
  lemma AgreesExceptInLastSubtree(d: nat, block: nat)
    requires d >= 1
    ensures BlockIsIndirect(d, block).Some? <==> block < |Layout(d)|
    ensures block < |Layout(d)| ==>
              (BlockIsIndirect(d, block) == Some(Layout(d)[block]) <==> !Missed(d, block))
  {
    BoundIsLayoutSize(d);
    FailsBeyondBound(d, block);
    if block < |Layout(d)| { Compared(d, block); }
  }

  lemma FailsBeyondBound(d: nat, block: nat)
    requires d >= 1
    ensures BlockIsIndirect(d, block).Some? <==> block < MaxBlocks(d)
  {
  }

  lemma Compared(d: nat, block: nat)
    requires d >= 1 && block < |Layout(d)|
    ensures BlockIsIndirect(d, block) == Some(Layout(d)[block]) <==> !Missed(d, block)
  {
    if block < DoubleRoot(d) {
      BeforeDoubleTree(d, block);
    } else if block < TripleRoot(d) {
      InDoubleTree(d, block);
    } else {
      InTripleTree(d, block);
    }
  }

  /** A missed block is a pointer block that the test takes for data. */
  lemma MissedIsPointer(d: nat, block: nat)
    requires d >= 1 && block < |Layout(d)| && Missed(d, block)
    ensures Layout(d)[block] && BlockIsIndirect(d, block) == Some(false)
  {
    AgreesExceptInLastSubtree(d, block);
  }
}
