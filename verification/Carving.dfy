/** The carving loop that rebuilds deleted JPEG files from the free blocks of a volume: what it
    extracts from any sequence of blocks, and that it inverts the on-disk layout. */
module Carving {
  import opened Options
  import opened IndirectBlocks
  import opened FreeBlocks

  type Byte = bv8
  type Block = seq<Byte>

  const JFIF_HEADER: seq<Byte> := [0xFF, 0xD8, 0xFF, 0xE0, 0x00, 0x10, 0x4A, 0x46, 0x49, 0x46, 0x00]
  const JFIF_EOI: seq<Byte> := [0xFF, 0xD9]

  // ---------------------------------------------------------------------- the patterns

  predicate OccursAt(slice: seq<Byte>, pattern: seq<Byte>, i: nat) {
    i + |pattern| <= |slice| && slice[i..i + |pattern|] == pattern
  }

  /** The first occurrence at or after `i`. */
  function Find(slice: seq<Byte>, pattern: seq<Byte>, i: nat): (r: Option<nat>)
    ensures r.Some? ==> i <= r.value && OccursAt(slice, pattern, r.value)
                        && forall k :: i <= k < r.value ==> !OccursAt(slice, pattern, k)
    ensures r.None? ==> forall k :: i <= k ==> !OccursAt(slice, pattern, k)
    decreases |slice| - i
  {
    if i + |pattern| > |slice| then None
    else if OccursAt(slice, pattern, i) then Some(i)
    else Find(slice, pattern, i + 1)
  }

  /** The position the tool works with counts from the offset, not from the start. */
  function PatternPosition(slice: seq<Byte>, pattern: seq<Byte>, offset: nat): Option<nat> {
    match Find(slice, pattern, offset)
    case None => None
    case Some(i) => Some(i - offset)
  }

  predicate AllZero(data: Block) {
    forall i :: 0 <= i < |data| ==> data[i] == 0
  }

  // ------------------------------------------------------------------------ the result

  /** The images in the order found, and whether the blocks ended inside another one, whose
      beginning is then dropped; or the run ended with a read error, or with a panic (a slice
      whose end precedes its start, or the block-number assertion). */
  datatype Recovery = Images(imgs: seq<seq<Byte>>, cut: bool) | IoError | Panicked

  function Prepend(img: seq<Byte>, r: Recovery): Recovery {
    After([img], r)
  }

  function After(imgs: seq<seq<Byte>>, r: Recovery): Recovery {
    if r.Images? then Images(imgs + r.imgs, r.cut) else r
  }

  /** What is carved out of a sequence of free blocks (`None` is one that cannot be read),
      `d` being the pointers a block holds. */
  function Carve(d: nat, input: seq<Option<Block>>): Recovery
    requires d >= 1
    decreases |input|, 0
  {
    if input == [] then Images([], false)
    else
      match input[0]
      case None => IoError
      case Some(data) =>
        if AllZero(data) then Carve(d, input[1..])
        else
          match PatternPosition(data, JFIF_HEADER, 0)
          case None => Carve(d, input[1..])
          case Some(start) =>
            match PatternPosition(data, JFIF_EOI, start)
            case None => Gather(d, data[start..], 0, input[1..])
            case Some(end) =>
              if start <= end + 2 then Prepend(data[start..end + 2], Carve(d, input[1..])) else Panicked
  }

  /** Collects the blocks of an image that goes on behind its first block. */
  function Gather(d: nat, img: seq<Byte>, blockCnt: nat, input: seq<Option<Block>>): Recovery
    requires d >= 1
    decreases |input|, 1
  {
    if input == [] then Images([], true)
    else
      match input[0]
      case None => IoError
      case Some(data) =>
        match BlockIsIndirect(d, blockCnt + 1)
        case None => Panicked
        case Some(true) => Gather(d, img, blockCnt + 1, input[1..])
        case Some(false) =>
          match PatternPosition(data, JFIF_EOI, 0)
          case None => Gather(d, img + data, blockCnt + 1, input[1..])
          case Some(end) => Prepend(img + data[..end + 2], Carve(d, input[1..]))
  }

  // ------------------------------------------------------------------- the tool's loop

  function Reads(fs: Ext2, ids: seq<nat>): seq<Option<Block>> {
    seq(|ids|, i requires 0 <= i < |ids| => fs.ReadBlock(ids[i]))
  }

  function PointersPerBlock(fs: Ext2): (d: nat)
    ensures d >= 1 && 4 * d == fs.BlockSize()
  {
    fs.BlockSize() / 4
  }

  /** What the iterator has yet to deliver, as long as it is on track. */
  ghost function Listed(iter: BlockIter): seq<nat>
    requires iter.fs.Valid()
    reads iter
  {
    iter.fs.FreeFrom(iter.blockId + 1)
  }

  /** The iterator is at its end; it stays there, unless it may have lost track. */
  ghost predicate Ended(iter: BlockIter)
    requires iter.fs.Valid()
    reads iter
  {
    Listed(iter) == [] && (iter.Valid() || iter.fs.ReadableGroups() < |iter.fs.bitmaps|)
  }

  /** Where a stretch of reads set out: the position of the iterator, whether it was on track
      there, and what it had yet to deliver then. */
  datatype Trail = Trail(start: nat, onTrack: bool, listed: seq<nat>)

  /** Since it set out, the iterator has delivered `ids`, on and on; and if it was on track, these
      are the first of what was listed, and it has the rest. If it has `ended`, there is no rest. */
  ghost predicate Follows(trail: Trail, ids: seq<nat>, iter: BlockIter, ended: bool)
    requires iter.fs.Valid()
    reads iter
  {
    && Onward(iter.fs, trail.start, ids, iter.blockId)
    && (trail.onTrack ==> trail.listed == ids + Listed(iter) && if ended then Ended(iter) else iter.Valid())
  }

  /** Blocks delivered on the way from position `lo` to position `hi`. */
  ghost predicate Onward(fs: Ext2, lo: nat, ids: seq<nat>, hi: nat) {
    && lo <= hi
    && (forall i :: 0 <= i < |ids| ==> Between(fs, lo, ids[i], hi))
    && Ascending(ids)
  }

  predicate Between(fs: Ext2, lo: nat, id: nat, hi: nat) {
    lo + fs.firstDataBlock < id <= hi + fs.firstDataBlock && id < fs.blockCount
  }

  predicate Ascending(ids: seq<nat>) {
    forall i, j :: 0 <= i < j < |ids| ==> ids[i] < ids[j]
  }

  lemma OnwardOne(fs: Ext2, lo: nat, ids: seq<nat>, mid: nat, hi: nat)
    requires Onward(fs, lo, ids, mid) && mid < hi && hi + fs.firstDataBlock < fs.blockCount
    ensures Onward(fs, lo, ids + [hi + fs.firstDataBlock], hi)
  {
    var more := ids + [hi + fs.firstDataBlock];
    forall i | 0 <= i < |more| ensures Between(fs, lo, more[i], hi) {
      assert i < |ids| ==> Between(fs, lo, ids[i], mid);
    }
    forall i, j | 0 <= i < j < |more| ensures more[i] < more[j] {
      assert Between(fs, lo, ids[i], mid);
    }
  }

  lemma DeliveredOne(listed: seq<nat>, ids: seq<nat>, id: nat, rest: seq<nat>)
    requires listed == ids + ([id] + rest)
    ensures listed == ids + [id] + rest
  {
  }

  /** Fetches the next free block (if any) and reads it (if it can be read). An iterator that has
      lost track, because a bitmap could not be read, still moves on with every block. */
  method NextRead(iter: BlockIter, ghost trail: Trail, ghost ids: seq<nat>)
    returns (r: Option<Option<Block>>, ghost id: nat)
    requires iter.fs.Valid() && Follows(trail, ids, iter, false)
    modifies iter
    ensures r.Some? ==> r.value == iter.fs.ReadBlock(id) && Follows(trail, ids + [id], iter, false)
    ensures r.Some? ==> iter.blockId > old(iter.blockId) && iter.blockId < iter.fs.blockCount
    ensures r.None? ==> Follows(trail, ids, iter, true)
    ensures iter.blockId >= old(iter.blockId)
  {
    var next := iter.Next();
    if next.None? { return None, 0; }
    id := next.value;
    OnwardOne(iter.fs, trail.start, ids, old(iter.blockId), iter.blockId);
    if trail.onTrack { DeliveredOne(trail.listed, ids, id, Listed(iter)); }
    r := Some(iter.fs.ReadBlock(next.value));
  }

  function Before(id: nat, count: nat): nat { if id < count then count - id else 0 }

  lemma Uncons(x: Option<Block>, rest: seq<Option<Block>>)
    ensures ([x] + rest)[0] == x && ([x] + rest)[1..] == rest && [x] + rest != []
  {
  }

  // --------------------------------------------------------------- places in the loops

  /** Where the carving stands: outside an image, or inside one, in which `blockCnt` blocks have
      been read behind the first. */
  datatype Place = Outside | Inside(img: seq<Byte>, blockCnt: nat)

  function CarveFrom(d: nat, place: Place, input: seq<Option<Block>>): Recovery
    requires d >= 1
  {
    match place
    case Outside => Carve(d, input)
    case Inside(img, blockCnt) => Gather(d, img, blockCnt, input)
  }

  /** Whatever follows, these reads lead from one place to the other and complete `imgs`. */
  ghost predicate Leads(d: nat, from: Place, got: seq<Option<Block>>, imgs: seq<seq<Byte>>, to: Place)
    requires d >= 1
  {
    forall rest: seq<Option<Block>> :: CarveFrom(d, from, got + rest) == After(imgs, CarveFrom(d, to, rest))
  }

  /** Whatever follows, these reads end in a failure. */
  ghost predicate Fails(d: nat, from: Place, got: seq<Option<Block>>, why: Recovery)
    requires d >= 1
  {
    !why.Images? && forall rest: seq<Option<Block>> :: CarveFrom(d, from, got + rest) == why
  }

  lemma AfterAfter(first: seq<seq<Byte>>, second: seq<seq<Byte>>, r: Recovery)
    ensures After(first, After(second, r)) == After(first + second, r) && After([], r) == r
  {
    if r.Images? {
      assert first + (second + r.imgs) == first + second + r.imgs;
      assert [] + r.imgs == r.imgs;
    }
  }

  lemma StaysPut(d: nat, from: Place)
    requires d >= 1
    ensures Leads(d, from, [], [], from)
  {
    forall rest: seq<Option<Block>> ensures CarveFrom(d, from, [] + rest) == After([], CarveFrom(d, from, rest)) {
      assert [] + rest == rest;
      AfterAfter([], [], CarveFrom(d, from, rest));
    }
  }

  lemma Leading(d: nat, from: Place, got: seq<Option<Block>>, imgs: seq<seq<Byte>>, to: Place, rest: seq<Option<Block>>)
    requires d >= 1 && Leads(d, from, got, imgs, to)
    ensures CarveFrom(d, from, got + rest) == After(imgs, CarveFrom(d, to, rest))
  {
  }

  lemma LeadsFurther(d: nat, from: Place, got: seq<Option<Block>>, imgs: seq<seq<Byte>>, mid: Place,
                     more: seq<Option<Block>>, moreImgs: seq<seq<Byte>>, to: Place, rest: seq<Option<Block>>)
    requires d >= 1 && Leads(d, from, got, imgs, mid) && Leads(d, mid, more, moreImgs, to)
    ensures CarveFrom(d, from, got + more + rest) == After(imgs + moreImgs, CarveFrom(d, to, rest))
  {
    assert got + more + rest == got + (more + rest);
    Leading(d, from, got, imgs, mid, more + rest);
    Leading(d, mid, more, moreImgs, to, rest);
    AfterAfter(imgs, moreImgs, CarveFrom(d, to, rest));
  }

  lemma LeadsOn(d: nat, from: Place, got: seq<Option<Block>>, imgs: seq<seq<Byte>>, mid: Place,
                more: seq<Option<Block>>, moreImgs: seq<seq<Byte>>, to: Place)
    requires d >= 1 && Leads(d, from, got, imgs, mid) && Leads(d, mid, more, moreImgs, to)
    ensures Leads(d, from, got + more, imgs + moreImgs, to)
  {
    forall rest: seq<Option<Block>>
      ensures CarveFrom(d, from, got + more + rest) == After(imgs + moreImgs, CarveFrom(d, to, rest))
    {
      LeadsFurther(d, from, got, imgs, mid, more, moreImgs, to, rest);
    }
  }

  lemma FailsFurther(d: nat, from: Place, got: seq<Option<Block>>, imgs: seq<seq<Byte>>, mid: Place,
                     more: seq<Option<Block>>, why: Recovery, rest: seq<Option<Block>>)
    requires d >= 1 && Leads(d, from, got, imgs, mid) && Fails(d, mid, more, why)
    ensures CarveFrom(d, from, got + more + rest) == why
  {
    assert got + more + rest == got + (more + rest);
    Leading(d, from, got, imgs, mid, more + rest);
    assert CarveFrom(d, mid, more + rest) == why;
  }

  lemma FailsOn(d: nat, from: Place, got: seq<Option<Block>>, imgs: seq<seq<Byte>>, mid: Place,
                more: seq<Option<Block>>, why: Recovery)
    requires d >= 1 && Leads(d, from, got, imgs, mid) && Fails(d, mid, more, why)
    ensures Fails(d, from, got + more, why)
  {
    forall rest: seq<Option<Block>> ensures CarveFrom(d, from, got + more + rest) == why {
      FailsFurther(d, from, got, imgs, mid, more, why, rest);
    }
  }

  lemma ReadsMore(fs: Ext2, ids: seq<nat>, id: nat)
    ensures Reads(fs, ids + [id]) == Reads(fs, ids) + [fs.ReadBlock(id)]
  {
  }

  /** What has come of a block, and of the blocks read on behind it. */
  datatype Gathering = Complete(img: seq<Byte>) | Nothing | Unfinished | Failed(why: Recovery)

  /** `r` is what these reads make of the place the carving was at. */
  ghost predicate Outcome(d: nat, from: Place, got: seq<Option<Block>>, r: Gathering)
    requires d >= 1
  {
    match r
    case Complete(img) => Leads(d, from, got, [img], Outside)
    case Nothing => Leads(d, from, got, [], Outside)
    case Unfinished => CarveFrom(d, from, got) == Images([], true)
    case Failed(why) => Fails(d, from, got, why)
  }

  lemma OutcomeOn(d: nat, from: Place, got: seq<Option<Block>>, mid: Place, more: seq<Option<Block>>, r: Gathering)
    requires d >= 1 && Leads(d, from, got, [], mid) && Outcome(d, mid, more, r)
    ensures Outcome(d, from, got + more, r)
  {
    match r
    case Complete(img) =>
      assert [] + [img] == [img];
      LeadsOn(d, from, got, [], mid, more, [img], Outside);
    case Nothing => LeadsOn(d, from, got, [], mid, more, [], Outside);
    case Unfinished => AfterAfter([], [], CarveFrom(d, mid, more));
    case Failed(why) => FailsOn(d, from, got, [], mid, more, why);
  }

  /** How one read of the inner loop ends it: by a failure, or with the image. */
  predicate Ends(d: nat, img: seq<Byte>, blockCnt: nat, read: Option<Block>, r: Gathering)
    requires d >= 1
  {
    match r
    case Complete(whole) =>
      && read.Some? && BlockIsIndirect(d, blockCnt + 1) == Some(false)
      && PatternPosition(read.value, JFIF_EOI, 0).Some?
      && whole == img + read.value[..PatternPosition(read.value, JFIF_EOI, 0).value + 2]
    case Failed(why) =>
      || (read.None? && why == IoError)
      || (read.Some? && BlockIsIndirect(d, blockCnt + 1).None? && why == Panicked)
    case _ => false
  }

  lemma EndsHere(d: nat, img: seq<Byte>, blockCnt: nat, read: Option<Block>, r: Gathering)
    requires d >= 1 && Ends(d, img, blockCnt, read, r)
    ensures Outcome(d, Inside(img, blockCnt), [read], r)
  {
    forall rest: seq<Option<Block>>
      ensures CarveFrom(d, Inside(img, blockCnt), [read] + rest)
              == if r.Complete? then After([r.img], Carve(d, rest)) else r.why
    {
      Uncons(read, rest);
    }
  }

  lemma LastRead(d: nat, first: Place, got: seq<Option<Block>>, img: seq<Byte>, blockCnt: nat,
                 read: Option<Block>, r: Gathering)
    requires d >= 1 && Leads(d, first, got, [], Inside(img, blockCnt)) && Ends(d, img, blockCnt, read, r)
    ensures Outcome(d, first, got + [read], r)
  {
    EndsHere(d, img, blockCnt, read, r);
    OutcomeOn(d, first, got, Inside(img, blockCnt), [read], r);
  }

  lemma NothingMore(d: nat, first: Place, got: seq<Option<Block>>, img: seq<Byte>, blockCnt: nat)
    requires d >= 1 && Leads(d, first, got, [], Inside(img, blockCnt))
    ensures Outcome(d, first, got, Unfinished)
  {
    OutcomeOn(d, first, got, Inside(img, blockCnt), [], Unfinished);
    assert got + [] == got;
  }

  /** What the inner loop keeps of a block it runs past. */
  function Kept(d: nat, number: nat, data: Block): seq<Byte>
    requires d >= 1
  {
    if BlockIsIndirect(d, number) == Some(true) then [] else data
  }

  /** One read of the inner loop that goes on. */
  lemma ReadOn(d: nat, img: seq<Byte>, blockCnt: nat, data: Block)
    requires d >= 1 && BlockIsIndirect(d, blockCnt + 1).Some?
    requires BlockIsIndirect(d, blockCnt + 1) == Some(false) ==> PatternPosition(data, JFIF_EOI, 0).None?
    ensures var kept := img + Kept(d, blockCnt + 1, data);
            Leads(d, Inside(img, blockCnt), [Some(data)], [], Inside(kept, blockCnt + 1))
  {
    var kept := img + Kept(d, blockCnt + 1, data);
    forall rest: seq<Option<Block>>
      ensures CarveFrom(d, Inside(img, blockCnt), [Some(data)] + rest)
              == After([], CarveFrom(d, Inside(kept, blockCnt + 1), rest))
    {
      Uncons(Some(data), rest);
      assert img + [] == img;
      AfterAfter([], [], Gather(d, kept, blockCnt + 1, rest));
    }
  }

  lemma KeepsGoing(d: nat, first: Place, got: seq<Option<Block>>, img: seq<Byte>, blockCnt: nat, data: Block)
    requires d >= 1 && Leads(d, first, got, [], Inside(img, blockCnt)) && BlockIsIndirect(d, blockCnt + 1).Some?
    requires BlockIsIndirect(d, blockCnt + 1) == Some(false) ==> PatternPosition(data, JFIF_EOI, 0).None?
    ensures var kept := img + Kept(d, blockCnt + 1, data);
            Leads(d, first, got + [Some(data)], [], Inside(kept, blockCnt + 1))
  {
    var kept := img + Kept(d, blockCnt + 1, data);
    ReadOn(d, img, blockCnt, data);
    LeadsOn(d, first, got, [], Inside(img, blockCnt), [Some(data)], [], Inside(kept, blockCnt + 1));
  }

  /** The inner loop: reads on behind the first block of an image until the image ends, the
      free blocks do, or something fails. */
  method GatherImage(d: nat, iter: BlockIter, begun: seq<Byte>, ghost trail: Trail, ghost before: seq<nat>)
    returns (r: Gathering, ghost ids: seq<nat>)
    requires d >= 1 && iter.fs.Valid() && Follows(trail, before, iter, false)
    modifies iter
    ensures Follows(trail, before + ids, iter, r.Unfinished?)
    ensures iter.blockId >= old(iter.blockId)
    ensures Outcome(d, Inside(begun, 0), Reads(iter.fs, ids), r)
  {
    var img, blockCnt := begun, 0;
    ids := [];
    assert before + ids == before;
    StaysPut(d, Inside(begun, 0));
    while true
      invariant Follows(trail, before + ids, iter, false) && iter.blockId >= old(iter.blockId)
      invariant Leads(d, Inside(begun, 0), Reads(iter.fs, ids), [], Inside(img, blockCnt))
      decreases Before(iter.blockId, iter.fs.blockCount)
    {
      var read, id := NextRead(iter, trail, before + ids);
      ghost var first, got := Inside(begun, 0), Reads(iter.fs, ids);
      if read.None? {
        NothingMore(d, first, got, img, blockCnt);
        return Unfinished, ids;
      }
      ReadsMore(iter.fs, ids, id);
      assert before + ids + [id] == before + (ids + [id]);
      ids := ids + [id];
      if read.value.None? {
        LastRead(d, first, got, img, blockCnt, None, Failed(IoError));
        return Failed(IoError), ids;
      }
      var data := read.value.value;
      var indirect := BlockIsIndirect(d, blockCnt + 1);
      if indirect.None? {
        LastRead(d, first, got, img, blockCnt, Some(data), Failed(Panicked));
        return Failed(Panicked), ids;
      }
      if !indirect.value {
        var end := PatternPosition(data, JFIF_EOI, 0);
        if end.Some? {
          r := Complete(img + data[..end.value + 2]);
          LastRead(d, first, got, img, blockCnt, Some(data), r);
          return r, ids;
        }
      }
      KeepsGoing(d, first, got, img, blockCnt, data);
      assert img + [] == img;
      blockCnt := blockCnt + 1;
      img := if indirect.value then img else img + data;
    }
  }

  /** A block that is done with by itself. */
  lemma OneBlock(d: nat, data: Block, r: Gathering)
    requires d >= 1 && !r.Unfinished?
    requires match PatternPosition(data, JFIF_HEADER, 0)
             case None => r == Nothing
             case Some(start) =>
               if AllZero(data) then r == Nothing
               else match PatternPosition(data, JFIF_EOI, start)
                 case None => false
                 case Some(end) =>
                   if start <= end + 2 then r == Complete(data[start..end + 2]) else r == Failed(Panicked)
    ensures Outcome(d, Outside, [Some(data)], r)
  {
    forall rest: seq<Option<Block>>
      ensures CarveFrom(d, Outside, [Some(data)] + rest)
              == match r
                 case Complete(img) => After([img], Carve(d, rest))
                 case Nothing => Carve(d, rest)
                 case Failed(why) => why
    {
      Uncons(Some(data), rest);
    }
    if r.Nothing? {
      forall rest: seq<Option<Block>>
        ensures CarveFrom(d, Outside, [Some(data)] + rest) == After([], CarveFrom(d, Outside, rest))
      {
        AfterAfter([], [], Carve(d, rest));
      }
    }
  }

  /** A block in which an image begins that goes on behind it. */
  lemma FirstBlock(d: nat, data: Block, start: nat)
    requires d >= 1 && !AllZero(data) && PatternPosition(data, JFIF_HEADER, 0) == Some(start)
    requires PatternPosition(data, JFIF_EOI, start).None?
    ensures start <= |data| && Leads(d, Outside, [Some(data)], [], Inside(data[start..], 0))
  {
    forall rest: seq<Option<Block>>
      ensures CarveFrom(d, Outside, [Some(data)] + rest) == After([], CarveFrom(d, Inside(data[start..], 0), rest))
    {
      Uncons(Some(data), rest);
      AfterAfter([], [], Gather(d, data[start..], 0, rest));
    }
  }

  /** The body of the outer loop, for a block that could be read. */
  method CarveBlock(d: nat, iter: BlockIter, data: Block, ghost trail: Trail, ghost before: seq<nat>)
    returns (r: Gathering, ghost ids: seq<nat>)
    requires d >= 1 && iter.fs.Valid() && Follows(trail, before, iter, false)
    modifies iter
    ensures Follows(trail, before + ids, iter, r.Unfinished?)
    ensures iter.blockId >= old(iter.blockId)
    ensures Outcome(d, Outside, [Some(data)] + Reads(iter.fs, ids), r)
  {
    ids := [];
    assert before + ids == before;
    assert [Some(data)] + Reads(iter.fs, ids) == [Some(data)];
    var position := PatternPosition(data, JFIF_HEADER, 0);
    if AllZero(data) || position.None? {
      OneBlock(d, data, Nothing);
      return Nothing, ids;
    }
    var start := position.value;
    var end := PatternPosition(data, JFIF_EOI, start);
    if end.Some? {
      r := if start <= end.value + 2 then Complete(data[start..end.value + 2]) else Failed(Panicked);
      OneBlock(d, data, r);
      return r, ids;
    }
    FirstBlock(d, data, start);
    r, ids := GatherImage(d, iter, data[start..], trail, before);
    OutcomeOn(d, Outside, [Some(data)], Inside(data[start..], 0), Reads(iter.fs, ids), r);
  }
}
