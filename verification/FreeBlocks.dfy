/** The free blocks of an ext2 file system, read off the block bitmaps of its groups: the
    iterator that scans the bitmaps bit by bit, proved to refine a plain filter. */
module FreeBlocks {
  import opened Options
  import opened DivMod

  // ------------------------------------------------------------------- bits of a byte

  function Mask(i: nat): bv8
    requires i < 8
  {
    if i == 0 then 1 else if i == 1 then 2 else if i == 2 then 4 else if i == 3 then 8
    else if i == 4 then 16 else if i == 5 then 32 else if i == 6 then 64 else 128
  }

  /** Bit `i` of a bitmap byte: set means the block is in use. */
  predicate Used(b: bv8, i: nat)
    requires i < 8
  {
    b & Mask(i) != 0
  }

  function TrailingZeros(b: bv8): nat
    requires b != 0
  {
    if b & 1 != 0 then 0 else if b & 2 != 0 then 1 else if b & 4 != 0 then 2 else if b & 8 != 0 then 3
    else if b & 16 != 0 then 4 else if b & 32 != 0 then 5 else if b & 64 != 0 then 6 else 7
  }

  /** The complemented and shifted byte the iterator tests. */
  function FreeBits(b: bv8, bit: nat): bv8
    requires bit < 8
  {
    !b >> bit
  }

  /** Bit `j` of the tested byte is set exactly when block `bit + j` of the byte is free. */
  lemma FreeBitsAt(b: bv8, bit: nat, j: nat)
    requires bit < 8 && j < 8
    ensures FreeBits(b, bit) & Mask(j) != 0 <==> bit + j < 8 && !Used(b, bit + j)
  {
    match j
    case 0 => case 1 => case 2 => case 3 => case 4 => case 5 => case 6 => case 7 =>
  }

  lemma LowestBit(x: bv8)
    requires x != 0
    ensures TrailingZeros(x) < 8 && x & Mask(TrailingZeros(x)) != 0
    ensures forall j :: 0 <= j < TrailingZeros(x) ==> x & Mask(j) == 0
  {
  }

  /** What the test finds: the first free bit at or after `bit`, or that there is none. */
  lemma ScanByte(b: bv8, bit: nat)
    requires bit < 8
    ensures FreeBits(b, bit) == 0 ==> forall i :: bit <= i < 8 ==> Used(b, i)
    ensures FreeBits(b, bit) != 0 ==>
              var i := bit + TrailingZeros(FreeBits(b, bit));
              i < 8 && !Used(b, i) && forall j :: bit <= j < i ==> Used(b, j)
  {
    var x := FreeBits(b, bit);
    if x == 0 {
      forall i | bit <= i < 8 ensures Used(b, i) { FreeBitsAt(b, bit, i - bit); }
    } else {
      LowestBit(x);
      FreeBitsAt(b, bit, TrailingZeros(x));
      forall j | bit <= j < bit + TrailingZeros(x) ensures Used(b, j) { FreeBitsAt(b, bit, j - bit); }
    }
  }

  // ------------------------------------------------------------------ the file system

  /** The parts of the superblock that matter here, the block bitmap of every group (if it can
      be read), and the contents of the blocks. */
  datatype Ext2 = Ext2(
    logBlockSize: nat,
    firstDataBlock: nat,
    blocksPerGroup: nat,
    blockCount: nat,
    bitmaps: seq<Option<seq<bv8>>>,
    blocks: seq<seq<bv8>>)
  {
    function BlockGroupCount(): nat
      requires blockCount >= 1 && blocksPerGroup >= 1
    {
      1 + (blockCount - 1) / blocksPerGroup
    }

    function BitmapSize(): nat
      requires blocksPerGroup >= 1
    {
      1 + (blocksPerGroup - 1) / 8
    }

    /** A volume the tool can work on: bitmaps cover their group, and the padding bits behind
        the last block of a group, if there are any, are set. */
    predicate Valid() {
      && blockCount >= 1 && blocksPerGroup >= 1
      && |bitmaps| == BlockGroupCount()
      && (forall g :: 0 <= g < |bitmaps| && bitmaps[g].Some? ==> ValidBitmap(bitmaps[g].value))
    }

    predicate ValidBitmap(bitmap: seq<bv8>)
      requires blocksPerGroup >= 1
    {
      |bitmap| == BitmapSize()
      && forall i :: blocksPerGroup <= i < 8 * |bitmap| ==> UsedAt(bitmap, i)
    }

    function BlockSize(): nat {
      1024 * Power2(logBlockSize)
    }

    function ReadBlock(b: nat): Option<seq<bv8>> {
      if b < |blocks| then Some(blocks[b]) else None
    }

    /** The groups before the first one whose bitmap cannot be read. */
    function ReadableGroups(): (r: nat)
      ensures r <= |bitmaps|
      ensures forall k :: 0 <= k < r ==> bitmaps[k].Some?
      ensures r < |bitmaps| ==> bitmaps[r].None?
    {
      FirstUnreadable(bitmaps, 0)
    }

    /** Whether the bitmaps mark position `id` (counted over all groups) as free. */
    predicate IsFree(id: nat)
      requires blocksPerGroup >= 1 && id / blocksPerGroup < ReadableGroups()
    {
      !UsedAt(bitmaps[id / blocksPerGroup].value, id % blocksPerGroup)
    }

    /** The positions before the end of the scan: of the volume, or of the readable bitmaps. */
    function End(): nat
    {
      var scanned := ReadableGroups() * blocksPerGroup;
      var stored := if blockCount <= firstDataBlock then 0 else blockCount - firstDataBlock;
      if scanned < stored then scanned else stored
    }

    lemma InReadableGroup(id: nat)
      requires Valid() && id < ReadableGroups() * blocksPerGroup
      ensures id / blocksPerGroup < ReadableGroups()
    {
      var q := id / blocksPerGroup;
      assert id == q * blocksPerGroup + id % blocksPerGroup;
      if q >= ReadableGroups() { MulMono(ReadableGroups(), q, blocksPerGroup); }
    }

    /** The plain filter: the free blocks from position `id` on, in ascending order. */
    function FreeFrom(id: nat): seq<nat>
      requires Valid()
      decreases End() - id
    {
      if id >= End() then []
      else
        InReadableGroup(id);
        (if IsFree(id) then [id + firstDataBlock] else []) + FreeFrom(id + 1)
    }
  }

  function FirstUnreadable(bitmaps: seq<Option<seq<bv8>>>, g: nat): (r: nat)
    requires g <= |bitmaps|
    ensures g <= r <= |bitmaps|
    ensures forall k :: g <= k < r ==> bitmaps[k].Some?
    ensures r < |bitmaps| ==> bitmaps[r].None?
    decreases |bitmaps| - g
  {
    if g < |bitmaps| && bitmaps[g].Some? then FirstUnreadable(bitmaps, g + 1) else g
  }

  predicate UsedAt(bitmap: seq<bv8>, i: nat) {
    i / 8 < |bitmap| && Used(bitmap[i / 8], i % 8)
  }

  /** The filter lists strictly ascending blocks, and exactly the free ones. */
  lemma {:induction false} FreeFromIsFilter(fs: Ext2, id: nat)
    requires fs.Valid()
    ensures forall i, j :: 0 <= i < j < |fs.FreeFrom(id)| ==> fs.FreeFrom(id)[i] < fs.FreeFrom(id)[j]
    ensures forall b: nat :: b in fs.FreeFrom(id) <==> IsListed(fs, id, b)
    decreases fs.End() - id
  {
    if id < fs.End() {
      FreeFromIsFilter(fs, id + 1);
      fs.InReadableGroup(id);
      var rest := fs.FreeFrom(id + 1);
      forall b: nat ensures b in fs.FreeFrom(id) <==> IsListed(fs, id, b) {
        assert b in rest <==> IsListed(fs, id + 1, b);
      }
      forall j | 0 <= j < |rest| ensures rest[j] > id + fs.firstDataBlock {
        assert rest[j] in rest;
      }
    }
  }

  predicate IsListed(fs: Ext2, from: nat, b: nat)
    requires fs.Valid()
  {
    && b >= fs.firstDataBlock && from <= b - fs.firstDataBlock < fs.End()
    && (fs.InReadableGroup(b - fs.firstDataBlock); fs.IsFree(b - fs.firstDataBlock))
  }

  /** Skipping positions that are not free does not change what is listed. */
  lemma {:induction false} FreeFromSkip(fs: Ext2, lo: nat, hi: nat)
    requires fs.Valid() && lo <= hi
    requires forall id: nat :: lo <= id < hi && id < fs.End() ==> !FreeAt(fs, id)
    ensures fs.FreeFrom(lo) == fs.FreeFrom(hi)
    decreases hi - lo
  {
    if lo < hi {
      FreeFromSkip(fs, lo + 1, hi);
      if lo < fs.End() {
        assert !FreeAt(fs, lo);
        fs.InReadableGroup(lo);
      }
    }
  }

  predicate FreeAt(fs: Ext2, id: nat)
    requires fs.Valid()
  {
    id / fs.blocksPerGroup < fs.ReadableGroups() && fs.IsFree(id)
  }

  // --------------------------------------------------------------- progress of a scan

  /** The scan that began at position `start` has passed the first `k` positions of `group`
      (as far as the group has them) and found nothing free. */
  ghost predicate Passed(fs: Ext2, start: nat, group: nat, k: nat)
    requires fs.Valid()
  {
    && start <= group * fs.blocksPerGroup + Lesser(k, fs.blocksPerGroup)
    && forall id: nat :: start <= id < group * fs.blocksPerGroup + Lesser(k, fs.blocksPerGroup) ==> !FreeAt(fs, id)
  }

  function Lesser(a: nat, b: nat): nat { if a < b then a else b }

  lemma FreeAtIndex(fs: Ext2, group: nat, i: nat)
    requires fs.Valid() && group < fs.ReadableGroups() && i < fs.blocksPerGroup
    ensures FreeAt(fs, group * fs.blocksPerGroup + i) <==> !UsedAt(fs.bitmaps[group].value, i)
  {
    ModOf(group, fs.blocksPerGroup, i);
  }

  /** The scan starts right behind the last position returned. */
  lemma StartsPassed(fs: Ext2, group: nat, i: nat)
    requires fs.Valid() && group < fs.ReadableGroups() && i < fs.blocksPerGroup
    ensures Passed(fs, group * fs.blocksPerGroup + i + 1, group, i + 1)
    ensures (i + 1) / 8 <= |fs.bitmaps[group].value|
  {
    assert fs.ValidBitmap(fs.bitmaps[group].value);
  }

  /** Used bits ahead can be passed. */
  lemma PassUsed(fs: Ext2, start: nat, group: nat, k: nat, k': nat)
    requires fs.Valid() && group < fs.ReadableGroups() && k <= k' && Passed(fs, start, group, k)
    requires forall i :: k <= i < k' ==> UsedAt(fs.bitmaps[group].value, i)
    ensures Passed(fs, start, group, k')
  {
    var base := group * fs.blocksPerGroup;
    forall id: nat | start <= id < base + Lesser(k', fs.blocksPerGroup) ensures !FreeAt(fs, id) {
      if id >= base + Lesser(k, fs.blocksPerGroup) {
        var i := id - base;
        FreeAtIndex(fs, group, i);
      }
    }
  }

  /** Behind the last position of a group comes the next group. */
  lemma PassGroup(fs: Ext2, start: nat, group: nat, k: nat)
    requires fs.Valid() && Passed(fs, start, group, k) && k >= 8 * fs.BitmapSize()
    ensures Passed(fs, start, group + 1, 0)
    ensures (group + 1) * fs.blocksPerGroup == group * fs.blocksPerGroup + fs.blocksPerGroup
  {
    var m, base := fs.blocksPerGroup, group * fs.blocksPerGroup;
    assert 8 * fs.BitmapSize() >= m;
    assert Lesser(k, m) == m && Lesser(0, m) == 0;
    assert (group + 1) * m == base + m;
    forall id: nat | start <= id < (group + 1) * m ensures !FreeAt(fs, id) {
      assert id < base + Lesser(k, m);
    }
  }

  /** The bits of one byte, as positions of the bitmap. */
  lemma ByteBits(bitmap: seq<bv8>, byte: nat, i: nat)
    requires byte < |bitmap| && i < 8
    ensures UsedAt(bitmap, byte * 8 + i) <==> Used(bitmap[byte], i)
  {
    ModOf(byte, 8, i);
  }

  lemma PassByte(fs: Ext2, start: nat, group: nat, byte: nat, bit: nat)
    requires fs.Valid() && group < fs.ReadableGroups() && bit < 8
    requires byte < |fs.bitmaps[group].value| && Passed(fs, start, group, byte * 8 + bit)
    requires FreeBits(fs.bitmaps[group].value[byte], bit) == 0
    ensures Passed(fs, start, group, (byte + 1) * 8)
  {
    var bitmap := fs.bitmaps[group].value;
    ScanByte(bitmap[byte], bit);
    forall i | byte * 8 + bit <= i < (byte + 1) * 8 ensures UsedAt(bitmap, i) { ByteBits(bitmap, byte, i - byte * 8); }
    PassUsed(fs, start, group, byte * 8 + bit, (byte + 1) * 8);
  }

  /** The first free bit of a byte is a position of the group, and the next one to be listed. */
  lemma FindInByte(fs: Ext2, start: nat, group: nat, byte: nat, bit: nat)
    requires fs.Valid() && group < fs.ReadableGroups() && bit < 8
    requires byte < |fs.bitmaps[group].value| && Passed(fs, start, group, byte * 8 + bit)
    requires FreeBits(fs.bitmaps[group].value[byte], bit) != 0
    ensures var i := byte * 8 + (bit + TrailingZeros(FreeBits(fs.bitmaps[group].value[byte], bit)));
            var id := group * fs.blocksPerGroup + i;
            && i < fs.blocksPerGroup && start <= id
            && FreeAt(fs, id) && fs.FreeFrom(start) == fs.FreeFrom(id)
  {
    var bitmap := fs.bitmaps[group].value;
    ScanByte(bitmap[byte], bit);
    var found := bit + TrailingZeros(FreeBits(bitmap[byte], bit));
    var i := byte * 8 + found;
    ByteBits(bitmap, byte, found);
    assert fs.ValidBitmap(bitmap);
    assert i < fs.blocksPerGroup;
    forall j | byte * 8 + bit <= j < i ensures UsedAt(bitmap, j) { ByteBits(bitmap, byte, j - byte * 8); }
    PassUsed(fs, start, group, byte * 8 + bit, i);
    ModOf(group, fs.blocksPerGroup, i);
    FreeAtIndex(fs, group, i);
    FreeFromSkip(fs, start, group * fs.blocksPerGroup + i);
  }

  /** Once every readable group is passed, nothing more is listed. */
  lemma PassedAll(fs: Ext2, start: nat, group: nat)
    requires fs.Valid() && Passed(fs, start, group, 0) && group >= fs.ReadableGroups()
    ensures fs.FreeFrom(start) == []
  {
    var base := group * fs.blocksPerGroup;
    MulMono(fs.ReadableGroups(), group, fs.blocksPerGroup);
    FreeFromSkip(fs, start, base);
  }

  /** A free position lies in the readable part of the bitmaps. */
  lemma FreeIsScanned(fs: Ext2, id: nat)
    requires fs.Valid() && FreeAt(fs, id)
    ensures id < fs.ReadableGroups() * fs.blocksPerGroup
  {
    BeforeRow(id, fs.blocksPerGroup, fs.ReadableGroups());
  }

  lemma BeforeRow(id: nat, m: nat, rows: nat)
    requires m > 0 && id / m < rows
    ensures id < rows * m
  {
    var q := id / m;
    assert id == q * m + id % m;
    assert (q + 1) * m == q * m + m;
    MulMono(q + 1, rows, m);
  }

  /** A free position is listed if it is before the end of the volume. */
  lemma ListedNext(fs: Ext2, id: nat)
    requires fs.Valid() && FreeAt(fs, id)
    ensures id + fs.firstDataBlock >= fs.blockCount ==> fs.FreeFrom(id) == []
    ensures id + fs.firstDataBlock < fs.blockCount ==> fs.FreeFrom(id) == [id + fs.firstDataBlock] + fs.FreeFrom(id + 1)
  {
    FreeIsScanned(fs, id);
  }

  /** What a scan at position `k` of `group` knows of the bitmap it holds: it is the group's own;
      or it is a leftover of an earlier scan, and neither it nor the group has anything free. */
  ghost predicate Holds(fs: Ext2, bitmap: seq<bv8>, start: nat, group: nat, k: nat)
    requires fs.Valid() && group < fs.ReadableGroups()
  {
    && Passed(fs, start, group, k)
    && |bitmap| == fs.BitmapSize()
    && (bitmap == fs.bitmaps[group].value
        || (Passed(fs, start, group, 8 * |bitmap|) && forall i :: k <= i < 8 * |bitmap| ==> UsedAt(bitmap, i)))
  }

  lemma HoldsPastByte(fs: Ext2, bitmap: seq<bv8>, start: nat, group: nat, byte: nat, bit: nat)
    requires fs.Valid() && group < fs.ReadableGroups() && bit < 8 && byte < |bitmap|
    requires Holds(fs, bitmap, start, group, byte * 8 + bit) && FreeBits(bitmap[byte], bit) == 0
    ensures Holds(fs, bitmap, start, group, (byte + 1) * 8 + 0)
  {
    if bitmap == fs.bitmaps[group].value {
      PassByte(fs, start, group, byte, bit);
    } else {
      FewerPassed(fs, start, group, byte * 8 + bit, (byte + 1) * 8, 8 * |bitmap|);
    }
  }

  lemma FewerPassed(fs: Ext2, start: nat, group: nat, lo: nat, k: nat, hi: nat)
    requires fs.Valid() && lo <= k <= hi && Passed(fs, start, group, lo) && Passed(fs, start, group, hi)
    ensures Passed(fs, start, group, k)
  {
  }

  /** A free bit can only come from the group's own bitmap. */
  lemma HoldsOwn(fs: Ext2, bitmap: seq<bv8>, start: nat, group: nat, byte: nat, bit: nat)
    requires fs.Valid() && group < fs.ReadableGroups() && bit < 8 && byte < |bitmap|
    requires Holds(fs, bitmap, start, group, byte * 8 + bit) && FreeBits(bitmap[byte], bit) != 0
    ensures bitmap == fs.bitmaps[group].value
  {
    ScanByte(bitmap[byte], bit);
    ByteBits(bitmap, byte, bit + TrailingZeros(FreeBits(bitmap[byte], bit)));
  }

  /** When every group is passed, the bitmap of the last one has nothing free behind `start`. */
  lemma LastBitmapUsed(fs: Ext2, start: nat, i: nat)
    requires fs.Valid() && fs.ReadableGroups() == |fs.bitmaps| && i < fs.blocksPerGroup
    requires Passed(fs, start, |fs.bitmaps|, 0) && start <= (|fs.bitmaps| - 1) * fs.blocksPerGroup + i
    ensures UsedAt(fs.bitmaps[|fs.bitmaps| - 1].value, i)
  {
    var last := |fs.bitmaps| - 1;
    assert (last + 1) * fs.blocksPerGroup == last * fs.blocksPerGroup + fs.blocksPerGroup;
    FreeAtIndex(fs, last, i);
  }

  /** Having passed all groups includes having passed this one. */
  lemma PassedOne(fs: Ext2, start: nat, group: nat, k: nat)
    requires fs.Valid() && group < |fs.bitmaps| && start <= group * fs.blocksPerGroup + Lesser(k, fs.blocksPerGroup)
    requires Passed(fs, start, |fs.bitmaps|, 0)
    ensures Passed(fs, start, group, k)
  {
    assert (group + 1) * fs.blocksPerGroup == group * fs.blocksPerGroup + fs.blocksPerGroup;
    MulMono(group + 1, |fs.bitmaps|, fs.blocksPerGroup);
  }

  /** So the bitmap of the last group is then a leftover that can be held anywhere. */
  lemma NothingLeft(fs: Ext2, start: nat, group: nat, index: nat)
    requires fs.Valid() && fs.ReadableGroups() == |fs.bitmaps| && group < |fs.bitmaps| && index < fs.blocksPerGroup
    requires start == group * fs.blocksPerGroup + index + 1 && Passed(fs, start, |fs.bitmaps|, 0)
    ensures Holds(fs, fs.bitmaps[|fs.bitmaps| - 1].value, start, group, index + 1)
  {
    var bitmap, m := fs.bitmaps[|fs.bitmaps| - 1].value, fs.blocksPerGroup;
    assert fs.ValidBitmap(bitmap);
    MulMono(group, |fs.bitmaps| - 1, m);
    forall i | index + 1 <= i < 8 * |bitmap| ensures UsedAt(bitmap, i) {
      if i < m { LastBitmapUsed(fs, start, i); }
    }
    PassedOne(fs, start, group, index + 1);
    PassedOne(fs, start, group, 8 * |bitmap|);
  }

  /** What a scan that found nothing holds: what it set out with, or the last group's bitmap. */
  lemma StillHeld(fs: Ext2, before: seq<bv8>, bitmap: seq<bv8>, start: nat, group: nat, index: nat)
    requires fs.Valid() && fs.ReadableGroups() == |fs.bitmaps| && group < |fs.bitmaps| && index < fs.blocksPerGroup
    requires start == group * fs.blocksPerGroup + index + 1 && Passed(fs, start, |fs.bitmaps|, 0)
    requires Holds(fs, before, start, group, index + 1)
    requires bitmap == before || bitmap == fs.bitmaps[|fs.bitmaps| - 1].value
    ensures Holds(fs, bitmap, start, group, index + 1)
  {
    if bitmap != before { NothingLeft(fs, start, group, index); }
  }

  /** The same for a bitmap just loaded, at the start of its group. */
  lemma HoldsFresh(fs: Ext2, start: nat, group: nat, k: nat)
    requires fs.Valid() && group < fs.ReadableGroups() && Passed(fs, start, group, k)
    ensures Holds(fs, fs.bitmaps[group].value, start, group, k)
  {
    assert fs.ValidBitmap(fs.bitmaps[group].value);
  }

  /** Right behind a position, the bitmap of its group can be held. */
  lemma HoldsHere(fs: Ext2, id: nat, group: nat, index: nat)
    requires fs.Valid() && group < fs.ReadableGroups() && index < fs.blocksPerGroup
    requires id == group * fs.blocksPerGroup + index
    ensures Holds(fs, fs.bitmaps[group].value, id + 1, group, index + 1)
    ensures (index + 1) / 8 <= fs.BitmapSize()
  {
    StartsPassed(fs, group, index);
    HoldsFresh(fs, id + 1, group, index + 1);
  }

  /** A free bit in the bitmap held is the next position to be listed. */
  lemma HoldsFind(fs: Ext2, bitmap: seq<bv8>, start: nat, group: nat, byte: nat, bit: nat)
    requires fs.Valid() && group < fs.ReadableGroups() && bit < 8 && byte < |bitmap|
    requires Holds(fs, bitmap, start, group, byte * 8 + bit) && FreeBits(bitmap[byte], bit) != 0
    ensures var i := byte * 8 + (bit + TrailingZeros(FreeBits(bitmap[byte], bit)));
            var id := group * fs.blocksPerGroup + i;
            && bitmap == fs.bitmaps[group].value
            && i < fs.blocksPerGroup && start <= id
            && FreeAt(fs, id) && fs.FreeFrom(start) == fs.FreeFrom(id)
  {
    HoldsOwn(fs, bitmap, start, group, byte, bit);
    FindInByte(fs, start, group, byte, bit);
  }

  // --------------------------------------------------------------------- the iterator

  /** The next bit of a group is in its bitmap, or right behind it. */
  lemma ByteAndBit(k: nat, size: nat)
    requires 1 <= k <= size
    ensures k / 8 * 8 + k % 8 == k && k / 8 <= 1 + (size - 1) / 8
  {
  }

  function GroupOf(id: nat, m: nat): nat
    requires m > 0
  {
    id / m
  }

  function IndexOf(id: nat, m: nat): (k: nat)
    requires m > 0
    ensures k < m && id == GroupOf(id, m) * m + k
  {
    id % m
  }

  /** The scan that looks at position `k` of group `g` has moved on from `start`. */
  predicate Ahead(start: nat, g: nat, k: nat, m: nat) {
    start <= g * m + k && start <= (g + 1) * m
  }

  lemma StartsAhead(id: nat, m: nat)
    requires m > 0
    ensures var k := IndexOf(id, m) + 1;
            k / 8 * 8 + k % 8 == k && Ahead(id + 1, GroupOf(id, m), k / 8 * 8 + k % 8, m)
  {
    var g, k := GroupOf(id, m), IndexOf(id, m) + 1;
    assert (g + 1) * m == g * m + m;
    assert k / 8 * 8 + k % 8 == k;
  }

  lemma AheadInNextGroup(start: nat, g: nat, k: nat, m: nat)
    requires Ahead(start, g, k, m)
    ensures Ahead(start, g + 1, 0, m)
  {
    MulMono(g + 1, g + 2, m);
  }

  lemma AheadInNextByte(start: nat, g: nat, k: nat, k': nat, m: nat)
    requires Ahead(start, g, k, m) && k <= k'
    ensures Ahead(start, g, k', m)
  {
  }

  /** A scan on track sets out from the bit behind the last position returned. */
  lemma HoldsNext(fs: Ext2, bitmap: seq<bv8>, id: nat, group: nat, index: nat)
    requires fs.Valid() && group < fs.ReadableGroups() && index < fs.blocksPerGroup
    requires id == group * fs.blocksPerGroup + index && Holds(fs, bitmap, id + 1, group, index + 1)
    ensures var k := IndexOf(id, fs.blocksPerGroup) + 1;
            && GroupOf(id, fs.blocksPerGroup) == group && k / 8 <= |bitmap|
            && Holds(fs, bitmap, id + 1, group, k / 8 * 8 + k % 8)
  {
    ModOf(group, fs.blocksPerGroup, index);
    ByteAndBit(index + 1, fs.blocksPerGroup);
  }

  class BlockIter {
    const fs: Ext2
    var blockId: nat
    var blockBitmap: seq<bv8>
    // the group of the last position returned, and its index there
    ghost var group: nat
    ghost var index: nat

    ghost predicate Positioned()
      reads this
    {
      && fs.Valid()
      && group < fs.ReadableGroups() && index < fs.blocksPerGroup
      && blockId == group * fs.blocksPerGroup + index
    }

    /** The bitmap in hand is that of the group of the last position returned, or, once a scan
        has run to the end, a leftover in which nothing is free. */
    ghost predicate Valid()
      reads this
    {
      Positioned() && Holds(fs, blockBitmap, blockId + 1, group, index + 1)
    }

    /** Starts behind the very first position, which holds the superblock. */
    constructor (fs: Ext2)
      requires fs.Valid() && fs.bitmaps[0].Some?
      ensures this.fs == fs && Valid() && blockId == 0
    {
      this.fs := fs;
      blockId := 0;
      blockBitmap := fs.bitmaps[0].value;
      group, index := 0, 0;
      new;
      HoldsHere(fs, 0, 0, 0);
    }

    /** Moves the scan on to the next group, if there is one whose bitmap can be read. A failed
        read leaves a block's worth of unspecified bytes behind. What is said of the free blocks
        holds for a scan that is on track: one that did not set out from such a leftover. */
    method LoadNextGroup(g: nat, ghost start: nat, ghost k: nat, ghost onTrack: bool) returns (loaded: bool)
      requires fs.Valid()
      requires onTrack ==> g < fs.ReadableGroups() && Passed(fs, start, g, k) && k >= 8 * fs.BitmapSize()
      modifies this`blockBitmap
      ensures loaded ==> g + 1 < |fs.bitmaps| && |blockBitmap| > 0
      ensures onTrack && loaded ==>
                && g + 1 < fs.ReadableGroups() && blockBitmap == fs.bitmaps[g + 1].value
                && Holds(fs, blockBitmap, start, g + 1, 0)
      ensures onTrack && !loaded ==> fs.FreeFrom(start) == []
      ensures onTrack && !loaded && fs.ReadableGroups() == |fs.bitmaps| ==>
                && Passed(fs, start, |fs.bitmaps|, 0) && g == |fs.bitmaps| - 1
                && blockBitmap == old(blockBitmap)
    {
      if onTrack { PassGroup(fs, start, g, k); }
      if g + 1 >= fs.BlockGroupCount() {
        if onTrack { PassedAll(fs, start, g + 1); }
        return false;
      }
      if fs.bitmaps[g + 1].None? {
        if onTrack { PassedAll(fs, start, g + 1); }
        blockBitmap := *;
        return false;
      }
      blockBitmap := fs.bitmaps[g + 1].value;
      assert fs.ValidBitmap(blockBitmap);
      if onTrack { HoldsFresh(fs, start, g + 1, 0); }
      return true;
    }

    /** Stops the scan at the first free bit from `bit` on. */
    method StopAt(g: nat, byte: nat, bit: nat, ghost start: nat, ghost onTrack: bool)
      requires fs.Valid() && bit < 8 && byte < |blockBitmap| && FreeBits(blockBitmap[byte], bit) != 0
      requires Ahead(start, g, byte * 8 + bit, fs.blocksPerGroup)
      requires onTrack ==> g < fs.ReadableGroups() && Holds(fs, blockBitmap, start, g, byte * 8 + bit)
      modifies this`blockId, this`group, this`index
      ensures start <= blockId
      ensures onTrack ==> Positioned() && blockBitmap == fs.bitmaps[group].value
      ensures onTrack ==> FreeAt(fs, blockId) && fs.FreeFrom(start) == fs.FreeFrom(blockId)
    {
      if onTrack { HoldsFind(fs, blockBitmap, start, g, byte, bit); }
      var first := bit + TrailingZeros(FreeBits(blockBitmap[byte], bit));
      blockId := g * fs.blocksPerGroup + (byte * 8 + first);
      group, index := g, byte * 8 + first;
    }

    /** The scan loop: finds the next free position, or that the bitmaps hold no more. */
    method Scan(group0: nat, byte0: nat, bit0: nat, ghost start: nat, ghost onTrack: bool) returns (found: bool)
      requires fs.Valid() && bit0 < 8 && Ahead(start, group0, byte0 * 8 + bit0, fs.blocksPerGroup)
      requires onTrack ==>
                 && group0 < fs.ReadableGroups() && byte0 <= |blockBitmap|
                 && Holds(fs, blockBitmap, start, group0, byte0 * 8 + bit0)
      modifies this
      ensures found ==> start <= blockId
      ensures !found ==> blockId == old(blockId) && group == old(group) && index == old(index)
      ensures onTrack && !found ==>
                && fs.FreeFrom(start) == []
                && (fs.ReadableGroups() == |fs.bitmaps| ==>
                      && Passed(fs, start, |fs.bitmaps|, 0)
                      && (blockBitmap == old(blockBitmap) || blockBitmap == fs.bitmaps[|fs.bitmaps| - 1].value))
      ensures onTrack && found ==>
                && Positioned() && blockBitmap == fs.bitmaps[group].value
                && FreeAt(fs, blockId) && fs.FreeFrom(start) == fs.FreeFrom(blockId)
    {
      var g: nat, byte: nat, bit: nat := group0, byte0, bit0;
      while true
        invariant bit < 8 && Ahead(start, g, byte * 8 + bit, fs.blocksPerGroup)
        invariant onTrack ==> g < fs.ReadableGroups() && byte <= |blockBitmap|
        invariant onTrack ==> Holds(fs, blockBitmap, start, g, byte * 8 + bit)
        invariant onTrack && g > group0 ==> blockBitmap == fs.bitmaps[g].value
        invariant g == group0 ==> blockBitmap == old(blockBitmap)
        invariant g >= group0 && blockId == old(blockId) && group == old(group) && index == old(index)
        decreases |fs.bitmaps| - g, if byte <= |blockBitmap| then |blockBitmap| - byte else 0
      {
        if byte >= |blockBitmap| {
          var loaded := LoadNextGroup(g, start, byte * 8 + bit, onTrack);
          if !loaded { return false; }
          AheadInNextGroup(start, g, byte * 8 + bit, fs.blocksPerGroup);
          g, byte, bit := g + 1, 0, 0;
        }
        if FreeBits(blockBitmap[byte], bit) != 0 {
          StopAt(g, byte, bit, start, onTrack);
          return true;
        } else {
          if onTrack { HoldsPastByte(fs, blockBitmap, start, g, byte, bit); }
          AheadInNextByte(start, g, byte * 8 + bit, (byte + 1) * 8 + 0, fs.blocksPerGroup);
          byte := byte + 1;
          bit := 0;
        }
      }
    }

    /** The block at a position just found, unless it is behind the end of the volume. */
    method Current(ghost onTrack: bool) returns (r: Option<nat>)
      requires fs.Valid()
      requires onTrack ==> Positioned() && blockBitmap == fs.bitmaps[group].value && FreeAt(fs, blockId)
      ensures r.Some? ==> r.value == blockId + fs.firstDataBlock < fs.blockCount
      ensures onTrack ==> Valid()
      ensures onTrack && r == None ==> fs.FreeFrom(blockId) == fs.FreeFrom(blockId + 1) == []
      ensures onTrack && r.Some? ==> fs.FreeFrom(blockId) == [r.value] + fs.FreeFrom(blockId + 1)
    {
      if onTrack {
        HoldsHere(fs, blockId, group, index);
        ListedNext(fs, blockId);
      }
      if blockId + fs.firstDataBlock >= fs.blockCount {
        r := None;
      } else {
        r := Some(blockId + fs.firstDataBlock);
      }
    }

    /** Scans on from behind the last position returned. */
    method Seek() returns (found: bool)
      requires fs.Valid()
      modifies this
      ensures if found then blockId > old(blockId) else blockId == old(blockId)
      ensures old(Valid()) && !found ==> fs.FreeFrom(blockId + 1) == []
      ensures old(Valid()) && !found && fs.ReadableGroups() == |fs.bitmaps| ==> Valid()
      ensures old(Valid()) && found ==>
                && Positioned() && blockBitmap == fs.bitmaps[group].value
                && FreeAt(fs, blockId) && fs.FreeFrom(old(blockId) + 1) == fs.FreeFrom(blockId)
    {
      ghost var onTrack := Valid();
      var indexInGroup := IndexOf(blockId, fs.blocksPerGroup) + 1;
      if onTrack { HoldsNext(fs, blockBitmap, blockId, group, index); }
      StartsAhead(blockId, fs.blocksPerGroup);
      found := Scan(GroupOf(blockId, fs.blocksPerGroup), indexInGroup / 8, indexInGroup % 8, blockId + 1, onTrack);
      if !found && onTrack && fs.ReadableGroups() == |fs.bitmaps| {
        StillHeld(fs, old(blockBitmap), blockBitmap, blockId + 1, group, index);
      }
    }

    /** Yields the head of the filtered list and moves on to its tail, or ends with it. With all
        bitmaps readable the iterator stays at the end once it has got there; otherwise a call
        behind the end may yield anything, but always a block further on. */
    method Next() returns (r: Option<nat>)
      requires fs.Valid()
      modifies this
      ensures blockId >= old(blockId)
      ensures r.Some? ==> blockId > old(blockId) && r.value == blockId + fs.firstDataBlock < fs.blockCount
      ensures old(Valid()) ==>
                fs.FreeFrom(old(blockId) + 1) == (if r.Some? then [r.value] else []) + fs.FreeFrom(blockId + 1)
      ensures old(Valid()) && r.None? ==> fs.FreeFrom(blockId + 1) == []
      ensures old(Valid()) && (r.Some? || fs.ReadableGroups() == |fs.bitmaps|) ==> Valid()
    {
      ghost var onTrack := Valid();
      var found := Seek();
      if !found { return None; }
      r := Current(onTrack);
    }
  }
}
