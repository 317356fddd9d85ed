/** The recovery round trip: a JPEG file that lies on consecutive free blocks in the ext2 layout,
    pointer blocks between its data blocks, is rebuilt byte for byte. */
module RecoveryRoundTrip {
  import opened Options
  import opened IndirectBlocks
  import opened FreeBlocks
  import opened Carving

  /** The bytes of the blocks that the layout says are data; `first` is the file's block number
      of `blocks[0]`. */
  function DataOf(d: nat, first: nat, blocks: seq<Block>): seq<Byte>
    requires first + |blocks| <= |Layout(d)|
    decreases |blocks|
  {
    if blocks == [] then []
    else (if Layout(d)[first] then [] else blocks[0]) + DataOf(d, first + 1, blocks[1..])
  }

  /** The bytes of the blocks that the tool's test takes for data. */
  function KeptOf(d: nat, first: nat, blocks: seq<Block>): seq<Byte>
    requires d >= 1
    decreases |blocks|
  {
    if blocks == [] then []
    else Kept(d, first, blocks[0]) + KeptOf(d, first + 1, blocks[1..])
  }

  predicate Contains(slice: seq<Byte>, pattern: seq<Byte>) {
    Find(slice, pattern, 0).Some?
  }

  function Last<T>(s: seq<T>): T
    requires s != []
  {
    s[|s| - 1]
  }

  function Front<T>(s: seq<T>): seq<T>
    requires s != []
  {
    s[..|s| - 1]
  }

  /** Where in the file's `i`-th block a search for the end marker begins. */
  function SearchFrom(start: nat, i: nat): nat { if i == 0 then start else 0 }

  /** `blocks` hold `file` in the ext2 layout, from position `start` of the first block to some
      position of the last. The file is a JPEG: it begins with a header, the first in its first
      block, and ends with the end marker, which occurs in no data block before and not earlier
      in the last one. */
  predicate JpegOnDisk(d: nat, file: seq<Byte>, start: nat, blocks: seq<Block>) {
    && blocks != [] && |blocks| <= |Layout(d)| && !Layout(d)[|blocks| - 1]
    && (forall i :: 0 <= i < |blocks| ==> |blocks[i]| == 4 * d)
    && Find(blocks[0], JFIF_HEADER, 0) == Some(start)
    && (forall i :: 0 <= i < |blocks| - 1 && !Layout(d)[i] ==> Find(blocks[i], JFIF_EOI, SearchFrom(start, i)).None?)
    && Stop(start, blocks).Some?
    && var all := DataOf(d, 0, Front(blocks)) + Last(blocks)[..Stop(start, blocks).value];
       start <= |all| && file == all[start..]
  }

  /** The position of the last block at which the file stops, right behind the end marker. */
  function Stop(start: nat, blocks: seq<Block>): (r: Option<nat>)
    requires blocks != []
    ensures r.Some? ==> r.value <= |Last(blocks)|
  {
    match Find(Last(blocks), JFIF_EOI, SearchFrom(start, |blocks| - 1))
    case None => None
    case Some(i) => Some(i + 2)
  }

  function Readable(blocks: seq<Block>): seq<Option<Block>> {
    seq(|blocks|, i requires 0 <= i < |blocks| => Some(blocks[i]))
  }

  // -------------------------------------------------------------------- reading along

  /** The inner loop does not stop at this block of the file. */
  predicate RunsPast(d: nat, number: nat, block: Block)
    requires d >= 1
  {
    && BlockIsIndirect(d, number).Some?
    && (BlockIsIndirect(d, number) == Some(false) ==> !Contains(block, JFIF_EOI))
  }

  /** It stops at none of these blocks, the first `cnt` behind the image's first being read. */
  predicate RunsThrough(d: nat, cnt: nat, blocks: seq<Block>)
    requires d >= 1
    decreases |blocks|
  {
    blocks == [] || (RunsPast(d, cnt + 1, blocks[0]) && RunsThrough(d, cnt + 1, blocks[1..]))
  }

  lemma {:induction false} RunsThroughAll(d: nat, cnt: nat, blocks: seq<Block>)
    requires d >= 1 && forall k :: 0 <= k < |blocks| ==> RunsPast(d, cnt + 1 + k, blocks[k])
    ensures RunsThrough(d, cnt, blocks)
    decreases |blocks|
  {
    if blocks != [] {
      forall k | 0 <= k < |blocks[1..]| ensures RunsPast(d, cnt + 1 + 1 + k, blocks[1..][k]) {
        assert RunsPast(d, cnt + 1 + (k + 1), blocks[k + 1]);
      }
      assert RunsPast(d, cnt + 1 + 0, blocks[0]);
      RunsThroughAll(d, cnt + 1, blocks[1..]);
    }
  }

  lemma LeadsFirst(d: nat, from: Place, blocks: seq<Block>, mid: Place, to: Place)
    requires d >= 1 && blocks != [] && Leads(d, from, [Some(blocks[0])], [], mid)
    requires Leads(d, mid, Readable(blocks[1..]), [], to)
    ensures Leads(d, from, Readable(blocks), [], to)
  {
    assert Readable(blocks) == [Some(blocks[0])] + Readable(blocks[1..]);
    LeadsOn(d, from, [Some(blocks[0])], [], mid, Readable(blocks[1..]), [], to);
  }

  lemma KeptOfFirst(d: nat, img: seq<Byte>, first: nat, blocks: seq<Block>)
    requires d >= 1 && blocks != []
    ensures img + Kept(d, first, blocks[0]) + KeptOf(d, first + 1, blocks[1..]) == img + KeptOf(d, first, blocks)
  {
  }

  lemma GatherFirst(d: nat, img: seq<Byte>, cnt: nat, blocks: seq<Block>, to: Place)
    requires d >= 1 && blocks != [] && RunsPast(d, cnt + 1, blocks[0])
    requires Leads(d, Inside(img + Kept(d, cnt + 1, blocks[0]), cnt + 1), Readable(blocks[1..]), [], to)
    ensures Leads(d, Inside(img, cnt), Readable(blocks), [], to)
  {
    ReadOn(d, img, cnt, blocks[0]);
    LeadsFirst(d, Inside(img, cnt), blocks, Inside(img + Kept(d, cnt + 1, blocks[0]), cnt + 1), to);
  }

  lemma GatherNone(d: nat, img: seq<Byte>, cnt: nat)
    requires d >= 1
    ensures Leads(d, Inside(img, cnt), Readable([]), [], Inside(img + KeptOf(d, cnt + 1, []), cnt))
  {
    StaysPut(d, Inside(img, cnt));
    assert img + [] == img && Readable([]) == [];
  }

  /** The inner loop runs through blocks without end marker, keeping those it takes for data. */
  lemma {:induction false} GatherRuns(d: nat, img: seq<Byte>, cnt: nat, blocks: seq<Block>)
    requires d >= 1 && RunsThrough(d, cnt, blocks)
    ensures Leads(d, Inside(img, cnt), Readable(blocks), [], Inside(img + KeptOf(d, cnt + 1, blocks), cnt + |blocks|))
    decreases |blocks|
  {
    if blocks == [] {
      GatherNone(d, img, cnt);
    } else {
      GatherRuns(d, img + Kept(d, cnt + 1, blocks[0]), cnt + 1, blocks[1..]);
      KeptOfFirst(d, img, cnt + 1, blocks);
      GatherFirst(d, img, cnt, blocks, Inside(img + KeptOf(d, cnt + 1, blocks), cnt + |blocks|));
    }
  }

  /** The end marker in the last block completes the image. */
  lemma GatherEnds(d: nat, img: seq<Byte>, cnt: nat, last: Block, end: nat, rest: seq<Option<Block>>)
    requires d >= 1 && BlockIsIndirect(d, cnt + 1) == Some(false) && Find(last, JFIF_EOI, 0) == Some(end)
    ensures end + 2 <= |last|
    ensures Gather(d, img, cnt, [Some(last)] + rest) == Prepend(img + last[..end + 2], Carve(d, rest))
  {
    Uncons(Some(last), rest);
  }

  // ------------------------------------------------------------ kept blocks, data blocks

  lemma {:induction false} KeptIsData(d: nat, first: nat, blocks: seq<Block>)
    requires d >= 1 && first + |blocks| <= |Layout(d)|
    requires forall i :: first <= i < first + |blocks| ==> !Missed(d, i)
    ensures KeptOf(d, first, blocks) == DataOf(d, first, blocks)
    decreases |blocks|
  {
    if blocks != [] {
      AgreesExceptInLastSubtree(d, first);
      KeptIsData(d, first + 1, blocks[1..]);
    }
  }

  /** Every missed pointer block is kept on top of the data. */
  lemma {:induction false} KeptIsLonger(d: nat, first: nat, blocks: seq<Block>)
    requires d >= 1 && first + |blocks| <= |Layout(d)|
    requires forall k :: 0 <= k < |blocks| ==> |blocks[k]| == 4 * d
    ensures |KeptOf(d, first, blocks)| >= |DataOf(d, first, blocks)|
    ensures (exists i :: first <= i < first + |blocks| && Missed(d, i)) ==>
              |KeptOf(d, first, blocks)| > |DataOf(d, first, blocks)|
    decreases |blocks|
  {
    if blocks != [] {
      AgreesExceptInLastSubtree(d, first);
      if Missed(d, first) { MissedIsPointer(d, first); }
      KeptIsLonger(d, first + 1, blocks[1..]);
    }
  }

  // ------------------------------------------------------------------- one file on disk

  /** The blocks before the last one, read on from the first. */
  predicate QuietPointers(d: nat, blocks: seq<Block>)
    requires |blocks| <= |Layout(d)|
  {
    forall i :: 0 <= i < |blocks| && Layout(d)[i] ==> !Contains(blocks[i], JFIF_EOI)
  }

  lemma HeaderBlock(data: Block, start: nat)
    requires Find(data, JFIF_HEADER, 0) == Some(start)
    ensures !AllZero(data) && PatternPosition(data, JFIF_HEADER, 0) == Some(start) && start + 11 <= |data|
  {
    assert data[start..start + 11][0] == data[start] == 0xFF;
  }

  /** The last block is taken for data, and the image ends in it. */
  lemma LastEnds(d: nat, file: seq<Byte>, start: nat, blocks: seq<Block>)
    requires d >= 1 && JpegOnDisk(d, file, start, blocks) && |blocks| > 1
    ensures BlockIsIndirect(d, |blocks| - 1) == Some(false)
    ensures Stop(start, blocks).value >= 2 && Find(Last(blocks), JFIF_EOI, 0) == Some(Stop(start, blocks).value - 2)
  {
    var i := |blocks| - 1;
    AgreesExceptInLastSubtree(d, i);
    if Missed(d, i) { MissedIsPointer(d, i); }
  }

  /** The first block starts an image that goes on. */
  lemma BeginsGather(d: nat, file: seq<Byte>, start: nat, blocks: seq<Block>, middle: seq<Block>,
                     rest: seq<Option<Block>>)
    requires d >= 1 && JpegOnDisk(d, file, start, blocks) && |blocks| > 1 && middle == blocks[1..|blocks| - 1]
    ensures start <= |blocks[0]|
    ensures Carve(d, Readable(blocks) + rest)
            == Gather(d, blocks[0][start..], 0, Readable(middle) + ([Some(Last(blocks))] + rest))
  {
    var more := Readable(middle) + ([Some(Last(blocks))] + rest);
    assert Readable(blocks) + rest == [Some(blocks[0])] + more;
    Uncons(Some(blocks[0]), more);
    HeaderBlock(blocks[0], start);
    assert !Layout(d)[0];
    assert SearchFrom(start, 0) == start;
  }

  /** The blocks between the first and the last do not end the image. */
  lemma MiddleRuns(d: nat, file: seq<Byte>, start: nat, blocks: seq<Block>, middle: seq<Block>)
    requires d >= 1 && JpegOnDisk(d, file, start, blocks) && |blocks| > 1 && middle == blocks[1..|blocks| - 1]
    requires QuietPointers(d, blocks) || forall i :: 0 <= i < |blocks| ==> !Missed(d, i)
    ensures RunsThrough(d, 0, middle)
  {
    forall k | 0 <= k < |middle| ensures RunsPast(d, 0 + 1 + k, middle[k]) {
      AgreesExceptInLastSubtree(d, 1 + k);
      assert middle[k] == blocks[1 + k];
    }
    RunsThroughAll(d, 0, middle);
  }

  lemma RunsToLast(d: nat, img: seq<Byte>, middle: seq<Block>, more: seq<Option<Block>>)
    requires d >= 1 && RunsThrough(d, 0, middle)
    ensures Gather(d, img, 0, Readable(middle) + more) == Gather(d, img + KeptOf(d, 1, middle), |middle|, more)
  {
    GatherRuns(d, img, 0, middle);
    Leading(d, Inside(img, 0), Readable(middle), [], Inside(img + KeptOf(d, 1, middle), |middle|), more);
    AfterAfter([], [], Gather(d, img + KeptOf(d, 1, middle), |middle|, more));
  }

  /** So the inner loop comes to the last block, with what it takes for data of those before. */
  lemma GathersToLast(d: nat, file: seq<Byte>, start: nat, blocks: seq<Block>, middle: seq<Block>,
                      rest: seq<Option<Block>>)
    requires d >= 1 && JpegOnDisk(d, file, start, blocks) && |blocks| > 1 && middle == blocks[1..|blocks| - 1]
    requires QuietPointers(d, blocks) || forall i :: 0 <= i < |blocks| ==> !Missed(d, i)
    ensures start <= |blocks[0]|
    ensures Carve(d, Readable(blocks) + rest)
            == Gather(d, blocks[0][start..] + KeptOf(d, 1, middle), |middle|, [Some(Last(blocks))] + rest)
  {
    BeginsGather(d, file, start, blocks, middle, rest);
    MiddleRuns(d, file, start, blocks, middle);
    RunsToLast(d, blocks[0][start..], middle, [Some(Last(blocks))] + rest);
  }

  lemma EndsInLast(d: nat, file: seq<Byte>, start: nat, blocks: seq<Block>, img: seq<Byte>, rest: seq<Option<Block>>)
    requires d >= 1 && JpegOnDisk(d, file, start, blocks) && |blocks| > 1
    ensures Gather(d, img, |blocks| - 2, [Some(Last(blocks))] + rest)
            == Prepend(img + Last(blocks)[..Stop(start, blocks).value], Carve(d, rest))
  {
    LastEnds(d, file, start, blocks);
    GatherEnds(d, img, |blocks| - 2, Last(blocks), Stop(start, blocks).value - 2, rest);
  }

  lemma KeptFront(d: nat, start: nat, first: Block, middle: seq<Block>, tail: seq<Byte>)
    requires d >= 1 && start <= |first|
    ensures KeptOf(d, 0, [first] + middle) == first + KeptOf(d, 1, middle)
    ensures (KeptOf(d, 0, [first] + middle) + tail)[start..] == first[start..] + KeptOf(d, 1, middle) + tail
  {
    assert ([first] + middle)[1..] == middle;
    assert BlockIsIndirect(d, 0) != Some(true);
  }

  /** What the tool extracts from a file of several blocks: everything it takes for data. It is
      enough that no block it takes for data before the last holds an end marker. */
  lemma CarvesKept(d: nat, file: seq<Byte>, start: nat, blocks: seq<Block>, rest: seq<Option<Block>>)
    requires d >= 1 && JpegOnDisk(d, file, start, blocks) && |blocks| > 1
    requires QuietPointers(d, blocks) || forall i :: 0 <= i < |blocks| ==> !Missed(d, i)
    ensures |KeptOf(d, 0, Front(blocks))| >= start
    ensures var all := KeptOf(d, 0, Front(blocks)) + Last(blocks)[..Stop(start, blocks).value];
            Carve(d, Readable(blocks) + rest) == Prepend(all[start..], Carve(d, rest))
  {
    var stop, middle := Stop(start, blocks).value, blocks[1..|blocks| - 1];
    assert Front(blocks) == [blocks[0]] + middle;
    GathersToLast(d, file, start, blocks, middle, rest);
    EndsInLast(d, file, start, blocks, blocks[0][start..] + KeptOf(d, 1, middle), rest);
    KeptFront(d, start, blocks[0], middle, Last(blocks)[..stop]);
  }

  /** A file in a single block. */
  lemma SingleBlock(d: nat, file: seq<Byte>, start: nat, blocks: seq<Block>)
    requires d >= 1 && JpegOnDisk(d, file, start, blocks) && |blocks| == 1
    ensures Readable(blocks) == [Some(blocks[0])]
    ensures var stop := start + |file|;
            && |file| >= 2 && Find(blocks[0], JFIF_EOI, start) == Some(stop - 2)
            && stop <= |blocks[0]| && file == blocks[0][start..stop]
  {
    var stop := Stop(start, blocks).value;
    assert DataOf(d, 0, Front(blocks)) == [];
    assert [] + blocks[0][..stop] == blocks[0][..stop];
    assert blocks[0][..stop][start..] == blocks[0][start..stop];
  }

  lemma CarvesSingleBlock(d: nat, file: seq<Byte>, blocks: seq<Block>, rest: seq<Option<Block>>)
    requires d >= 1 && JpegOnDisk(d, file, 0, blocks) && |blocks| == 1
    ensures Carve(d, Readable(blocks) + rest) == Prepend(file, Carve(d, rest))
  {
    SingleBlock(d, file, 0, blocks);
    HeaderBlock(blocks[0], 0);
    OneBlock(d, blocks[0], Complete(file));
    Leading(d, Outside, [Some(blocks[0])], [file], Outside, rest);
  }

  /** The round trip: a file inside the range of the pointer-block test is rebuilt exactly, and
      carving goes on behind it, if it begins at the start of its first block or ends in another. */
  lemma FileRecovered(d: nat, file: seq<Byte>, start: nat, blocks: seq<Block>, rest: seq<Option<Block>>)
    requires d >= 1 && JpegOnDisk(d, file, start, blocks) && |blocks| <= LastTested(d) + 1
    requires start == 0 || |blocks| > 1
    ensures Carve(d, Readable(blocks) + rest) == Prepend(file, Carve(d, rest))
  {
    if |blocks| == 1 {
      CarvesSingleBlock(d, file, blocks, rest);
    } else {
      CarvesKept(d, file, start, blocks, rest);
      KeptIsData(d, 0, Front(blocks));
    }
  }

  /** Exactly when a file is recovered, where pointer blocks hold no end marker: it lies within the
      range of the pointer-block test, and it begins at the start of its first block or does not
      end in it. (The position of the end marker counts from the header, but is used as if it
      counted from the start of the block.) */
  lemma FileRecoveredExactly(d: nat, file: seq<Byte>, start: nat, blocks: seq<Block>)
    requires d >= 1 && JpegOnDisk(d, file, start, blocks) && QuietPointers(d, blocks)
    ensures Carve(d, Readable(blocks)) == Images([file], false)
            <==> |blocks| <= LastTested(d) + 1 && (start == 0 || |blocks| > 1)
  {
    var none: seq<Option<Block>> := [];
    assert Readable(blocks) + none == Readable(blocks);
    if |blocks| > LastTested(d) + 1 {
      TooLargeForTest(d, file, start, blocks);
    } else if |blocks| > 1 {
      FileRecovered(d, file, start, blocks, none);
    } else {
      InOneBlock(d, file, start, blocks);
    }
  }

  lemma TooLargeForTest(d: nat, file: seq<Byte>, start: nat, blocks: seq<Block>)
    requires d >= 1 && JpegOnDisk(d, file, start, blocks) && QuietPointers(d, blocks)
    requires |blocks| > LastTested(d) + 1
    ensures Carve(d, Readable(blocks)) != Images([file], false)
  {
    var none: seq<Option<Block>> := [];
    assert Readable(blocks) + none == Readable(blocks);
    CarvesKept(d, file, start, blocks, none);
    var img := (KeptOf(d, 0, Front(blocks)) + Last(blocks)[..Stop(start, blocks).value])[start..];
    assert Carve(d, Readable(blocks)) == Images([img], false);
    MissesOne(d, blocks);
    assert |img| > |file|;
    assert [img][0] != [file][0];
  }

  /** An image inside one block is extracted exactly when its header is at the start: the position
      of its end marker counts from the header, but is used as if it counted from there. */
  lemma SingleBlockExactlyAtStart(d: nat, data: Block, start: nat, end: nat)
    requires d >= 1
    requires Find(data, JFIF_HEADER, 0) == Some(start) && Find(data, JFIF_EOI, start) == Some(end)
    ensures Carve(d, [Some(data)]) == Images([data[start..end + 2]], false) <==> start == 0
  {
    HeaderBlock(data, start);
    assert [Some(data)][1..] == [];
    if start <= end - start + 2 {
      var img := data[start..end - start + 2];
      assert Carve(d, [Some(data)]) == Images([img], false);
      if start > 0 {
        assert |img| < |data[start..end + 2]|;
        assert [img][0] != [data[start..end + 2]][0];
      }
    }
  }

  lemma InOneBlock(d: nat, file: seq<Byte>, start: nat, blocks: seq<Block>)
    requires d >= 1 && JpegOnDisk(d, file, start, blocks) && |blocks| == 1
    ensures Carve(d, Readable(blocks)) == Images([file], false) <==> start == 0
  {
    SingleBlock(d, file, start, blocks);
    SingleBlockExactlyAtStart(d, blocks[0], start, start + |file| - 2);
  }

  /** Beyond the range, some pointer block before the last block is kept. */
  lemma MissesOne(d: nat, blocks: seq<Block>)
    requires d >= 1 && LastTested(d) + 1 < |blocks| <= |Layout(d)| && !Layout(d)[|blocks| - 1]
    requires forall i :: 0 <= i < |blocks| ==> |blocks[i]| == 4 * d
    ensures |KeptOf(d, 0, Front(blocks))| > |DataOf(d, 0, Front(blocks))|
  {
    var first := LastTested(d) + 1;
    assert 0 % (d + 1) == 0;
    assert Missed(d, first);
    MissedIsPointer(d, first);
    KeptIsLonger(d, 0, Front(blocks));
  }

  // -------------------------------------------------------------------- a whole volume

  /** What the free blocks of a volume hold: blocks without a header, and deleted files. */
  datatype Segment = Junk(block: Block) | Jpeg(file: seq<Byte>, start: nat, blocks: seq<Block>)

  predicate SegmentOk(d: nat, s: Segment)
    requires d >= 1
  {
    match s
    case Junk(block) => !Contains(block, JFIF_HEADER)
    case Jpeg(file, start, blocks) =>
      JpegOnDisk(d, file, start, blocks) && |blocks| <= LastTested(d) + 1 && (start == 0 || |blocks| > 1)
  }

  function BlocksOf(segments: seq<Segment>): seq<Block> {
    if segments == [] then []
    else (match segments[0] case Junk(block) => [block] case Jpeg(_, _, blocks) => blocks) + BlocksOf(segments[1..])
  }

  function FilesOf(segments: seq<Segment>): seq<seq<Byte>> {
    if segments == [] then []
    else (match segments[0] case Junk(_) => [] case Jpeg(file, _, _) => [file]) + FilesOf(segments[1..])
  }

  lemma ReadableConcat(xs: seq<Block>, ys: seq<Block>)
    ensures Readable(xs + ys) == Readable(xs) + Readable(ys)
  {
  }

  /** Carving inverts the layout of a whole volume: it returns exactly the deleted files, in
      the order of their blocks. */
  lemma {:induction false} VolumeRecovered(d: nat, segments: seq<Segment>)
    requires d >= 1 && forall i :: 0 <= i < |segments| ==> SegmentOk(d, segments[i])
    ensures Carve(d, Readable(BlocksOf(segments))) == Images(FilesOf(segments), false)
    decreases |segments|
  {
    if segments != [] {
      var more := BlocksOf(segments[1..]);
      VolumeRecovered(d, segments[1..]);
      assert SegmentOk(d, segments[0]);
      match segments[0]
      case Junk(block) =>
        ReadableConcat([block], more);
        assert Readable([block]) == [Some(block)];
        Uncons(Some(block), Readable(more));
      case Jpeg(file, start, blocks) =>
        ReadableConcat(blocks, more);
        FileRecovered(d, file, start, blocks, Readable(more));
    }
  }

  /** The free blocks of the volume hold these segments, one after the other. */
  ghost predicate VolumeHolds(fs: Ext2, segments: seq<Segment>)
    requires fs.Valid()
  {
    && fs.bitmaps[0].Some?
    && Reads(fs, fs.FreeFrom(1)) == Readable(BlocksOf(segments))
    && forall i :: 0 <= i < |segments| ==> SegmentOk(PointersPerBlock(fs), segments[i])
  }

  // ------------------------------------------------------------------------ the whole run

  /** What is carved out of the blocks delivered, run by run: a run ends when the iterator is
      asked for more than it has. Only a run that ended inside an image, whose beginning is then
      dropped, is followed by another. */
  function CarveRuns(fs: Ext2, runs: seq<seq<nat>>): Recovery
    requires runs != []
    decreases |runs|
  {
    var last := Carve(PointersPerBlock(fs), Reads(fs, Last(runs)));
    if |runs| == 1 then last
    else
      var before := CarveRuns(fs, Front(runs));
      if before.Images? && before.cut then Resume(before.imgs, last) else before
  }

  function Resume(imgs: seq<seq<Byte>>, r: Recovery): Recovery {
    if r.Images? then Images(imgs + r.imgs, true) else r
  }

  function Flat(runs: seq<seq<nat>>): seq<nat>
    decreases |runs|
  {
    if runs == [] then [] else Flat(Front(runs)) + Last(runs)
  }

  /** Ascending blocks of the volume, behind position `lo`. */
  predicate Behind(fs: Ext2, lo: nat, ids: seq<nat>) {
    Ascending(ids) && forall i :: 0 <= i < |ids| ==> lo + fs.firstDataBlock < ids[i] < fs.blockCount
  }

  /** The blocks delivered in a recovery run: first those listed. Others come only if a bitmap
      cannot be read (from the unspecified bytes that the failed read leaves for a bitmap), and
      only from further on; so no block is ever read twice. */
  ghost predicate Delivery(fs: Ext2, lo: nat, runs: seq<seq<nat>>)
    requires fs.Valid()
  {
    && runs != [] && runs[0] == fs.FreeFrom(lo + 1)
    && Behind(fs, lo, Flat(runs))
    && (fs.ReadableGroups() == |fs.bitmaps| ==> runs[1..] == [] || runs[1..] == [[]])
  }

  /** The runs done: each ended inside an image, and `imgs` are those completed. The next run set
      out on `trail`. */
  ghost predicate Settled(fs: Ext2, lo: nat, done: seq<seq<nat>>, imgs: seq<seq<Byte>>, trail: Trail)
    requires fs.Valid()
  {
    if done == [] then imgs == [] && trail == Trail(lo, true, fs.FreeFrom(lo + 1))
    else
      && Delivery(fs, lo, done) && CarveRuns(fs, done) == Images(imgs, true)
      && lo <= trail.start && UpTo(fs, Flat(done), trail.start)
      && (fs.ReadableGroups() == |fs.bitmaps| ==> |done| == 1 && trail.onTrack && trail.listed == [])
  }

  predicate UpTo(fs: Ext2, ids: seq<nat>, hi: nat) {
    forall i :: 0 <= i < |ids| ==> ids[i] <= hi + fs.firstDataBlock
  }

  lemma ListedIsBehind(fs: Ext2, lo: nat)
    requires fs.Valid()
    ensures Behind(fs, lo, fs.FreeFrom(lo + 1))
  {
    var ids := fs.FreeFrom(lo + 1);
    FreeFromIsFilter(fs, lo + 1);
    forall i | 0 <= i < |ids| ensures lo + fs.firstDataBlock < ids[i] < fs.blockCount {
      assert ids[i] in ids;
    }
  }

  lemma OnwardIsBehind(fs: Ext2, lo: nat, ids: seq<nat>, hi: nat)
    requires Onward(fs, lo, ids, hi)
    ensures Behind(fs, lo, ids) && UpTo(fs, ids, hi)
  {
    forall i | 0 <= i < |ids| ensures lo + fs.firstDataBlock < ids[i] < fs.blockCount {
      assert Between(fs, lo, ids[i], hi);
    }
    forall i | 0 <= i < |ids| ensures ids[i] <= hi + fs.firstDataBlock {
      assert Between(fs, lo, ids[i], hi);
    }
  }

  lemma FlatMore(fs: Ext2, lo: nat, runs: seq<seq<nat>>, mid: nat, ids: seq<nat>)
    requires lo <= mid && Behind(fs, lo, Flat(runs)) && UpTo(fs, Flat(runs), mid) && Behind(fs, mid, ids)
    ensures Behind(fs, lo, Flat(runs + [ids])) && Flat(runs + [ids]) == Flat(runs) + ids
  {
    assert Front(runs + [ids]) == runs && Last(runs + [ids]) == ids;
  }

  lemma CarveRunsMore(fs: Ext2, runs: seq<seq<nat>>, ids: seq<nat>)
    ensures CarveRuns(fs, runs + [ids])
            == var last := Carve(PointersPerBlock(fs), Reads(fs, ids));
               if runs == [] then last
               else
                 var before := CarveRuns(fs, runs);
                 if before.Images? && before.cut then Resume(before.imgs, last) else before
  {
    assert Front(runs + [ids]) == runs && Last(runs + [ids]) == ids;
  }

  /** The blocks of one more run. */
  lemma OneMoreRun(fs: Ext2, lo: nat, done: seq<seq<nat>>, imgs: seq<seq<Byte>>, trail: Trail, ids: seq<nat>)
    requires fs.Valid() && Settled(fs, lo, done, imgs, trail) && Behind(fs, trail.start, ids)
    requires done == [] ==> ids == fs.FreeFrom(lo + 1)
    requires done != [] && fs.ReadableGroups() == |fs.bitmaps| ==> ids == []
    ensures Delivery(fs, lo, done + [ids])
    ensures CarveRuns(fs, done + [ids])
            == var last := Carve(PointersPerBlock(fs), Reads(fs, ids));
               if done == [] then last else Resume(imgs, last)
  {
    FlatMore(fs, lo, done, trail.start, ids);
    CarveRunsMore(fs, done, ids);
    if done != [] { assert (done + [ids])[1..] == done[1..] + [ids]; }
  }

  lemma ResumeImages(kept: seq<seq<Byte>>, imgs: seq<seq<Byte>>, cut: bool)
    ensures Resume(kept, Images(imgs, cut)) == Images(kept + imgs, true)
    ensures kept == [] ==> kept + imgs == imgs
  {
  }

  /** The blocks of a whole run are all that was listed. */
  lemma WholeRun(fs: Ext2, lo: nat, done: seq<seq<nat>>, kept: seq<seq<Byte>>, trail: Trail, ids: seq<nat>, hi: nat)
    requires fs.Valid() && Settled(fs, lo, done, kept, trail) && Onward(fs, trail.start, ids, hi)
    requires trail.onTrack ==> ids == trail.listed
    ensures lo <= trail.start <= hi && Behind(fs, trail.start, ids) && UpTo(fs, ids, hi)
    ensures done == [] ==> ids == fs.FreeFrom(lo + 1)
    ensures done != [] && fs.ReadableGroups() == |fs.bitmaps| ==> ids == []
  {
    OnwardIsBehind(fs, trail.start, ids, hi);
  }

  lemma UpToMore(fs: Ext2, lo: nat, done: seq<seq<nat>>, kept: seq<seq<Byte>>, trail: Trail, ids: seq<nat>, hi: nat)
    requires fs.Valid() && Settled(fs, lo, done, kept, trail) && lo <= trail.start <= hi
    requires Behind(fs, trail.start, ids) && UpTo(fs, ids, hi)
    ensures UpTo(fs, Flat(done + [ids]), hi)
    ensures fs.ReadableGroups() == |fs.bitmaps| ==> |done| <= 1
  {
    FlatMore(fs, lo, done, trail.start, ids);
  }

  /** A whole run, as the iterator has delivered it. */
  lemma RunEnded(fs: Ext2, lo: nat, done: seq<seq<nat>>, kept: seq<seq<Byte>>, trail: Trail, ids: seq<nat>,
                 hi: nat, imgs: seq<seq<Byte>>, cut: bool)
    requires fs.Valid() && Settled(fs, lo, done, kept, trail) && Onward(fs, trail.start, ids, hi)
    requires trail.onTrack ==> ids == trail.listed
    requires Carve(PointersPerBlock(fs), Reads(fs, ids)) == Images(imgs, cut)
    ensures Delivery(fs, lo, done + [ids]) && UpTo(fs, Flat(done + [ids]), hi) && lo <= hi
    ensures CarveRuns(fs, done + [ids]) == Images(kept + imgs, cut || done != [])
    ensures fs.ReadableGroups() == |fs.bitmaps| ==> |done| <= 1
  {
    WholeRun(fs, lo, done, kept, trail, ids, hi);
    OneMoreRun(fs, lo, done, kept, trail, ids);
    UpToMore(fs, lo, done, kept, trail, ids, hi);
    ResumeImages(kept, imgs, cut);
  }

  /** A run that ended in a failure. If it was the first, what is listed behind does not matter. */
  lemma RunFailed(fs: Ext2, lo: nat, done: seq<seq<nat>>, kept: seq<seq<Byte>>, trail: Trail, ids: seq<nat>,
                  hi: nat, rest: seq<nat>, why: Recovery) returns (run: seq<nat>)
    requires fs.Valid() && Settled(fs, lo, done, kept, trail) && Onward(fs, trail.start, ids, hi)
    requires trail.onTrack ==> trail.listed == ids + rest
    requires Fails(PointersPerBlock(fs), Outside, Reads(fs, ids), why)
    ensures Delivery(fs, lo, done + [run]) && CarveRuns(fs, done + [run]) == why
  {
    OnwardIsBehind(fs, trail.start, ids, hi);
    ListedIsBehind(fs, lo);
    var more := if done == [] then rest else [];
    run := ids + more;
    assert ids + [] == ids;
    assert Reads(fs, run) == Reads(fs, ids) + Reads(fs, more);
    assert CarveFrom(PointersPerBlock(fs), Outside, Reads(fs, ids) + Reads(fs, more)) == why;
    OneMoreRun(fs, lo, done, kept, trail, run);
  }

  lemma NoMoreBlocks(d: nat, got: seq<Option<Block>>, found: seq<seq<Byte>>)
    requires d >= 1 && Leads(d, Outside, got, found, Outside)
    ensures Carve(d, got) == Images(found, false)
  {
    Leading(d, Outside, got, found, Outside, []);
    assert got + [] == got && found + [] == found;
  }

  lemma CutsImage(d: nat, got: seq<Option<Block>>, found: seq<seq<Byte>>, more: seq<Option<Block>>)
    requires d >= 1 && Leads(d, Outside, got, found, Outside) && Outcome(d, Outside, more, Unfinished)
    ensures Carve(d, got + more) == Images(found, true)
  {
    Leading(d, Outside, got, found, Outside, more);
    assert found + [] == found;
  }

  lemma FailsAtRead(fs: Ext2, id: nat)
    requires fs.ReadBlock(id).None?
    ensures Fails(PointersPerBlock(fs), Outside, [fs.ReadBlock(id)] + Reads(fs, []), IoError)
  {
    var d := PointersPerBlock(fs);
    assert [fs.ReadBlock(id)] + Reads(fs, []) == [None];
    forall rest: seq<Option<Block>> ensures CarveFrom(d, Outside, [None] + rest) == IoError {
      Uncons(None, rest);
    }
  }

  lemma ReadsAll(fs: Ext2, ids: seq<nat>, more: seq<nat>)
    ensures Reads(fs, ids + more) == Reads(fs, ids) + Reads(fs, more)
  {
  }

  /** How the tool stands between two blocks of the outer loop: the runs done, with the images
      they completed; the run under way, what it has read and the images it has completed. */
  datatype Log = Log(done: seq<seq<nat>>, kept: seq<seq<Byte>>, trail: Trail, ids: seq<nat>, found: seq<seq<Byte>>)

  ghost predicate Stands(fs: Ext2, lo: nat, log: Log, imgs: seq<seq<Byte>>, cut: bool)
    requires fs.Valid()
  {
    && Settled(fs, lo, log.done, log.kept, log.trail) && cut == (log.done != []) && imgs == log.kept + log.found
    && Leads(PointersPerBlock(fs), Outside, Reads(fs, log.ids), log.found, Outside)
  }

  lemma StandsAtStart(fs: Ext2, lo: nat)
    requires fs.Valid()
    ensures Stands(fs, lo, Log([], [], Trail(lo, true, fs.FreeFrom(lo + 1)), [], []), [], false)
  {
    StaysPut(PointersPerBlock(fs), Outside);
    assert Reads(fs, []) == [];
  }

  function WithBlock(log: Log, id: nat, more: seq<nat>): Log {
    log.(ids := log.ids + [id] + more)
  }

  lemma ReadsWith(fs: Ext2, log: Log, id: nat, more: seq<nat>)
    ensures Reads(fs, WithBlock(log, id, more).ids) == Reads(fs, log.ids) + ([fs.ReadBlock(id)] + Reads(fs, more))
  {
    ReadsMore(fs, log.ids, id);
    ReadsAll(fs, log.ids + [id], more);
    assert Reads(fs, log.ids) + [fs.ReadBlock(id)] + Reads(fs, more)
        == Reads(fs, log.ids) + ([fs.ReadBlock(id)] + Reads(fs, more));
  }

  /** A block has been dealt with, and the loop goes on in the same run. */
  lemma GoesOn(fs: Ext2, lo: nat, log: Log, imgs: seq<seq<Byte>>, cut: bool, id: nat, more: seq<nat>,
               outcome: Gathering)
    requires fs.Valid() && Stands(fs, lo, log, imgs, cut) && (outcome.Complete? || outcome.Nothing?)
    requires Outcome(PointersPerBlock(fs), Outside, [fs.ReadBlock(id)] + Reads(fs, more), outcome)
    ensures var img := if outcome.Complete? then [outcome.img] else [];
            Stands(fs, lo, WithBlock(log, id, more).(found := log.found + img), imgs + img, cut)
  {
    var img := if outcome.Complete? then [outcome.img] else [];
    ReadsWith(fs, log, id, more);
    LeadsOn(PointersPerBlock(fs), Outside, Reads(fs, log.ids), log.found, Outside,
            [fs.ReadBlock(id)] + Reads(fs, more), img, Outside);
    assert log.kept + log.found + img == log.kept + (log.found + img);
  }

  /** The blocks have ended inside an image: the run is done, and another may follow. */
  lemma GoesOnBehind(fs: Ext2, lo: nat, log: Log, imgs: seq<seq<Byte>>, cut: bool, id: nat, more: seq<nat>,
                     trail: Trail)
    requires fs.Valid() && Stands(fs, lo, log, imgs, cut)
    requires Outcome(PointersPerBlock(fs), Outside, [fs.ReadBlock(id)] + Reads(fs, more), Unfinished)
    requires Onward(fs, log.trail.start, log.ids + [id] + more, trail.start)
    requires log.trail.onTrack ==> log.ids + [id] + more == log.trail.listed
    requires fs.ReadableGroups() == |fs.bitmaps| && log.trail.onTrack ==> trail.onTrack && trail.listed == []
    ensures Stands(fs, lo, Log(log.done + [log.ids + [id] + more], imgs, trail, [], []), imgs, true)
  {
    ReadsWith(fs, log, id, more);
    CutsImage(PointersPerBlock(fs), Reads(fs, log.ids), log.found, [fs.ReadBlock(id)] + Reads(fs, more));
    RunEnded(fs, lo, log.done, log.kept, log.trail, log.ids + [id] + more, trail.start, log.found, true);
    StandsAtStart(fs, lo);
    assert imgs + [] == imgs;
  }

  lemma GoesNoFurther(fs: Ext2, lo: nat, log: Log, imgs: seq<seq<Byte>>, cut: bool, hi: nat)
    requires fs.Valid() && Stands(fs, lo, log, imgs, cut) && Onward(fs, log.trail.start, log.ids, hi)
    requires log.trail.onTrack ==> log.ids == log.trail.listed
    ensures Delivery(fs, lo, log.done + [log.ids]) && CarveRuns(fs, log.done + [log.ids]) == Images(imgs, cut)
  {
    NoMoreBlocks(PointersPerBlock(fs), Reads(fs, log.ids), log.found);
    RunEnded(fs, lo, log.done, log.kept, log.trail, log.ids, hi, log.found, false);
  }

  lemma GoesWrong(fs: Ext2, lo: nat, log: Log, imgs: seq<seq<Byte>>, cut: bool, id: nat, more: seq<nat>,
                  hi: nat, rest: seq<nat>, why: Recovery) returns (run: seq<nat>)
    requires fs.Valid() && Stands(fs, lo, log, imgs, cut) && Onward(fs, log.trail.start, log.ids + [id] + more, hi)
    requires log.trail.onTrack ==> log.trail.listed == log.ids + [id] + more + rest
    requires Fails(PointersPerBlock(fs), Outside, [fs.ReadBlock(id)] + Reads(fs, more), why)
    ensures Delivery(fs, lo, log.done + [run]) && CarveRuns(fs, log.done + [run]) == why
  {
    ReadsWith(fs, log, id, more);
    FailsOn(PointersPerBlock(fs), Outside, Reads(fs, log.ids), log.found, Outside,
            [fs.ReadBlock(id)] + Reads(fs, more), why);
    run := RunFailed(fs, lo, log.done, log.kept, log.trail, log.ids + [id] + more, hi, rest, why);
  }

  /** At the end, the iterator sets out on another trail. */
  lemma SetsOutAgain(iter: BlockIter, trail: Trail, ids: seq<nat>) returns (next: Trail)
    requires iter.fs.Valid() && Follows(trail, ids, iter, true)
    ensures Follows(next, [], iter, false) && next.start == iter.blockId
    ensures iter.fs.ReadableGroups() == |iter.fs.bitmaps| && trail.onTrack ==> next.onTrack && next.listed == []
  {
    next := Trail(iter.blockId, iter.Valid(), Listed(iter));
    assert [] + Listed(iter) == Listed(iter);
  }

  /** One round of the outer loop: fetches the next block, if any, and carves it. */
  method NextRound(iter: BlockIter, ghost trail: Trail, ghost ids: seq<nat>)
    returns (r: Option<Gathering>, ghost id: nat, ghost more: seq<nat>)
    requires iter.fs.Valid() && Follows(trail, ids, iter, false)
    modifies iter
    ensures iter.blockId >= old(iter.blockId)
    ensures r.None? ==> Follows(trail, ids, iter, true)
    ensures r.Some? ==>
              && Before(iter.blockId, iter.fs.blockCount) < Before(old(iter.blockId), iter.fs.blockCount)
              && Follows(trail, ids + [id] + more, iter, r.value.Unfinished?)
              && Outcome(PointersPerBlock(iter.fs), Outside, [iter.fs.ReadBlock(id)] + Reads(iter.fs, more), r.value)
  {
    var read;
    read, id := NextRead(iter, trail, ids);
    more := [];
    if read.None? { return None, id, more; }
    if read.value.None? {
      FailsAtRead(iter.fs, id);
      assert ids + [id] + more == ids + [id];
      return Some(Failed(IoError)), id, more;
    }
    var outcome;
    outcome, more := CarveBlock(PointersPerBlock(iter.fs), iter, read.value.value, trail, ids + [id]);
    r := Some(outcome);
  }

  /** The outer loop. */
  method CarveAll(iter: BlockIter) returns (r: Recovery, ghost runs: seq<seq<nat>>)
    requires iter.Valid()
    modifies iter
    ensures Delivery(iter.fs, old(iter.blockId), runs) && r == CarveRuns(iter.fs, runs)
  {
    var imgs: seq<seq<Byte>>, cut := [], false;
    ghost var fs, lo := iter.fs, iter.blockId;
    ghost var log := Log([], [], Trail(lo, true, Listed(iter)), [], []);
    StandsAtStart(fs, lo);
    while true
      invariant Stands(fs, lo, log, imgs, cut) && Follows(log.trail, log.ids, iter, false)
      decreases Before(iter.blockId, iter.fs.blockCount)
    {
      var outcome, id, more := NextRound(iter, log.trail, log.ids);
      if outcome.None? {
        GoesNoFurther(fs, lo, log, imgs, cut, iter.blockId);
        return Images(imgs, cut), log.done + [log.ids];
      }
      match outcome.value {
        case Complete(img) =>
          GoesOn(fs, lo, log, imgs, cut, id, more, outcome.value);
          log := WithBlock(log, id, more).(found := log.found + [img]);
          imgs := imgs + [img];
        case Nothing =>
          GoesOn(fs, lo, log, imgs, cut, id, more, outcome.value);
          assert log.found + [] == log.found && imgs + [] == imgs;
          log := WithBlock(log, id, more);
        case Unfinished =>
          ghost var trail := SetsOutAgain(iter, log.trail, log.ids + [id] + more);
          GoesOnBehind(fs, lo, log, imgs, cut, id, more, trail);
          log := Log(log.done + [log.ids + [id] + more], imgs, trail, [], []);
          cut := true;
        case Failed(why) =>
          ghost var run := GoesWrong(fs, lo, log, imgs, cut, id, more, iter.blockId, Listed(iter), why);
          return why, log.done + [run];
      }
    }
  }

  /** The images of the first run come first; and unless it was cut, it is the whole result. */
  lemma {:induction false} FirstRunFirst(fs: Ext2, runs: seq<seq<nat>>)
    requires runs != []
    ensures var first := Carve(PointersPerBlock(fs), Reads(fs, runs[0]));
            && (|runs| == 1 || !first.Images? || !first.cut ==> CarveRuns(fs, runs) == first)
            && (runs[1..] == [[]] ==> CarveRuns(fs, runs) == first)
            && (first.Images? && CarveRuns(fs, runs).Images? ==> first.imgs <= CarveRuns(fs, runs).imgs)
    decreases |runs|
  {
    if |runs| > 1 {
      FirstRunFirst(fs, Front(runs));
      if runs[1..] == [[]] {
        assert Last(runs) == runs[1..][0] == [] && |Front(runs)| == 1;
        assert Reads(fs, []) == [];
        var first := CarveRuns(fs, Front(runs));
        if first.Images? { assert first.imgs + [] == first.imgs; }
      }
    }
  }

  /** The whole recovery run: it carves what the list of free blocks holds. Only if a bitmap cannot
      be read, and the blocks listed before that end inside an image, the run goes on behind its
      end, and more images may follow; those carved before are kept. So a volume that holds deleted
      files and junk gives back exactly the files, in the order of their blocks. */
  method RecoverFiles(fs: Ext2) returns (r: Recovery)
    requires fs.Valid()
    ensures fs.bitmaps[0].None? ==> r == IoError
    ensures fs.bitmaps[0].Some? ==> exists runs: seq<seq<nat>> :: Delivery(fs, 0, runs) && r == CarveRuns(fs, runs)
    ensures fs.bitmaps[0].Some? ==>
              var whole := Carve(PointersPerBlock(fs), Reads(fs, fs.FreeFrom(1)));
              && (r == whole || (whole.Images? && whole.cut && fs.ReadableGroups() < |fs.bitmaps|))
              && (whole.Images? && r.Images? ==> whole.imgs <= r.imgs)
    ensures forall segments: seq<Segment> :: VolumeHolds(fs, segments) ==> r == Images(FilesOf(segments), false)
  {
    forall segments: seq<Segment> | VolumeHolds(fs, segments)
      ensures Carve(PointersPerBlock(fs), Reads(fs, fs.FreeFrom(1))) == Images(FilesOf(segments), false)
    {
      VolumeRecovered(PointersPerBlock(fs), segments);
    }
    if fs.bitmaps[0].None? { return IoError; }
    var iter := new BlockIter(fs);
    ghost var runs: seq<seq<nat>>;
    r, runs := CarveAll(iter);
    FirstRunFirst(fs, runs);
  }
}
